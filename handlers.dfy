/** The two handler classes `handleCard` registers, `TitleRewriter` and
    `ContentRewriter`, and the parts of the runtime's text-chunk and element objects they
    call (`chunk.replace`, `el.setAttribute`). Each class method is specified by a
    function on values, which the directive table and the document model use. */
module Handlers {

  /** What `TitleRewriter.text` does to one chunk: the first chunk seen becomes the
      stored text, every later one the empty string; afterwards the flag is set. */
  function TitleStep(text: string, done: bool): (r: (string, bool))
    ensures r.1
    ensures r.0 == (if done then "" else text)
    ensures r.0 == text <==> !done || text == ""
  {
    if !done then (text, true) else ("", true)
  }

  /** The replacements a `TitleRewriter` with flag `done` produces for `chunks`, one
      `text` call per chunk, in order. Only the number of chunks matters: `replace`
      ignores what the chunk held. */
  function TitleFold(text: string, done: bool, chunks: seq<string>): (outs: seq<string>)
    ensures |outs| == |chunks|
    decreases |chunks|
  {
    if chunks == [] then []
    else
      var (out, done') := TitleStep(text, done);
      [out] + TitleFold(text, done', chunks[1..])
  }

  /** The concatenation of a sequence of chunks. */
  function Concat(chunks: seq<string>): string
    decreases |chunks|
  {
    if chunks == [] then "" else chunks[0] + Concat(chunks[1..])
  }

  /** Closed form of the fold: the stored text at the first position if the flag was
      clear, the empty string everywhere else. */
  lemma {:induction false} TitleFoldClosedForm(text: string, done: bool, chunks: seq<string>)
    ensures forall i :: 0 <= i < |chunks| ==>
      TitleFold(text, done, chunks)[i] == if i == 0 && !done then text else ""
    decreases |chunks|
  {
    if chunks != [] {
      TitleFoldClosedForm(text, true, chunks[1..]);
    }
  }

  /** Over one or more chunks a fresh handler emits its text exactly once: the output
      concatenates to the text. A handler whose flag is already set blanks everything. */
  lemma {:induction false} TitleFoldEmitsOnce(text: string, done: bool, chunks: seq<string>)
    ensures Concat(TitleFold(text, done, chunks)) == if !done && chunks != [] then text else ""
    decreases |chunks|
  {
    if chunks != [] {
      TitleFoldEmitsOnce(text, true, chunks[1..]);
      var outs := TitleFold(text, done, chunks);
      assert outs[1..] == TitleFold(text, true, chunks[1..]);
    }
  }

  /** The fold depends only on how many chunks there are, so feeding it its own output
      gives that output back. */
  lemma {:induction false} TitleFoldStable(text: string, done: bool, chunks: seq<string>, other: seq<string>)
    requires |other| == |chunks|
    ensures TitleFold(text, done, other) == TitleFold(text, done, chunks)
    decreases |chunks|
  {
    if chunks != [] {
      TitleFoldStable(text, TitleStep(text, done).1, chunks[1..], other[1..]);
    }
  }

  /** A handler fed one run of chunks and then another behaves as if fed both at once:
      the flag after the first run is set exactly when it was set or the run was non-empty. */
  lemma {:induction false} TitleFoldAppend(text: string, done: bool, first: seq<string>, second: seq<string>)
    ensures TitleFold(text, done, first + second)
      == TitleFold(text, done, first) + TitleFold(text, done || first != [], second)
    decreases |first|
  {
    if first == [] {
      assert first + second == second;
    } else {
      assert (first + second)[1..] == first[1..] + second;
      TitleFoldAppend(text, true, first[1..], second);
    }
  }

  /** `el.setAttribute('content', value)` on an attribute map: `content` holds `value`
      and every other attribute is kept as it was. */
  function SetContent(attrs: map<string, string>, value: string): (r: map<string, string>)
    ensures "content" in r && r["content"] == value
    ensures forall k :: k != "content" ==> (k in r <==> k in attrs)
    ensures forall k :: k != "content" && k in attrs ==> r[k] == attrs[k]
  {
    attrs["content" := value]
  }

  /** Setting `content` twice to the same value is the same as setting it once, and a
      later write of `content` replaces an earlier one. */
  lemma SetContentOverwrites(attrs: map<string, string>, first: string, second: string)
    ensures SetContent(SetContent(attrs, first), second) == SetContent(attrs, second)
  {
    var a, b := SetContent(SetContent(attrs, first), second), SetContent(attrs, second);
    assert a.Keys == b.Keys;
  }

  /** A text chunk handed to a text handler. */
  class TextChunk {
    var content: string

    constructor (content: string)
      ensures this.content == content
    {
      this.content := content;
    }

    /** `chunk.replace(s)`. */
    method Replace(s: string)
      modifies this
      ensures content == s
    {
      content := s;
    }
  }

  /** An element handed to an element handler; only its attributes are modelled. */
  class ElementNode {
    var attrs: map<string, string>

    constructor (attrs: map<string, string>)
      ensures this.attrs == attrs
    {
      this.attrs := attrs;
    }

    /** `el.setAttribute(name, value)`. */
    method SetAttribute(name: string, value: string)
      modifies this
      ensures attrs == old(attrs)[name := value]
    {
      attrs := attrs[name := value];
    }
  }

  /** `class TitleRewriter`: replaces the first text chunk it is given and blanks the rest. */
  class TitleRewriter {
    const text: string
    var done: bool

    constructor (text: string)
      ensures this.text == text && !done
    {
      this.text := text;
      done := false;
    }

    /** `text(chunk)`. Once set, the flag stays set. */
    method Text(chunk: TextChunk)
      modifies this, chunk
      ensures (chunk.content, done) == TitleStep(text, old(done))
      ensures old(done) ==> done
    {
      if !done {
        chunk.Replace(text);
        done := true;
      } else {
        chunk.Replace("");
      }
    }
  }

  /** `class ContentRewriter`: overwrites the `content` attribute of every element it is given. */
  class ContentRewriter {
    const content: string

    constructor (content: string)
      ensures this.content == content
    {
      this.content := content;
    }

    /** `element(el)`. */
    method Element(el: ElementNode)
      modifies el
      ensures el.attrs == SetContent(old(el.attrs), content)
    {
      el.SetAttribute("content", content);
    }
  }

  /** The runtime handing a title handler the text chunks of one element, one `text`
      call per chunk: the replacements are the fold's, and the flag ends set exactly
      when it was set before or there was a chunk. */
  method FeedChunks(r: TitleRewriter, chunks: seq<string>) returns (outs: seq<string>)
    modifies r
    ensures outs == TitleFold(r.text, old(r.done), chunks)
    ensures r.done == (old(r.done) || chunks != [])
  {
    outs := [];
    var i := 0;
    while i < |chunks|
      invariant 0 <= i <= |chunks|
      invariant r.done == (old(r.done) || i > 0)
      invariant outs + TitleFold(r.text, r.done, chunks[i..]) == TitleFold(r.text, old(r.done), chunks)
    {
      var chunk := new TextChunk(chunks[i]);
      ghost var before := r.done;
      r.Text(chunk);
      assert chunks[i..][1..] == chunks[i + 1..];
      assert TitleFold(r.text, before, chunks[i..]) == [chunk.content] + TitleFold(r.text, r.done, chunks[i + 1..]);
      outs := outs + [chunk.content];
      i := i + 1;
    }
  }
}
