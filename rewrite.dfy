/** The rewrite `handleCard` sets up: six selectors bound to handlers, applied in one pass
    over a document. The document is abstracted to its elements in order, each with its
    tag, its attributes and the text chunks the runtime delivers for its content;
    tokenising and the general selector engine are not modelled, only the two selector
    forms the worker uses. */
module Rewrite {
  import opened Options
  import opened Handlers
  import opened CardFields

  /** `tag` or `tag[attr="value"]`. */
  datatype Selector = Tag(name: string) | TagWithAttr(name: string, attr: string, value: string)

  /** What a handler does: a `TitleRewriter` or a `ContentRewriter`, with the string it holds. */
  datatype Action = ReplaceText(text: string) | SetContentAttr(value: string)

  /** One `.on(selector, handler)` registration. */
  datatype Directive = Directive(selector: Selector, action: Action)

  /** An element as the handlers see it. */
  datatype Element = Element(tag: string, attrs: map<string, string>, text: seq<string>)

  const TitleSelector := Tag("title")
  const OgTitleSelector := TagWithAttr("meta", "property", "og:title")
  const OgDescriptionSelector := TagWithAttr("meta", "property", "og:description")
  const OgImageSelector := TagWithAttr("meta", "property", "og:image")
  const OgUrlSelector := TagWithAttr("meta", "property", "og:url")
  const DescriptionSelector := TagWithAttr("meta", "name", "description")

  /** The registrations of `handleCard`, in order. */
  function CardDirectives(f: Fields): (ds: seq<Directive>)
    ensures |ds| == 6
    ensures forall i, j :: 0 <= i < j < |ds| ==> ds[i].selector != ds[j].selector
    ensures forall i :: 0 <= i < |ds| ==> (ds[i].action.ReplaceText? <==> ds[i].selector == TitleSelector)
  {
    [ Directive(TitleSelector, ReplaceText(f.ogTitle)),
      Directive(OgTitleSelector, SetContentAttr(f.ogTitle)),
      Directive(OgDescriptionSelector, SetContentAttr(f.ogDesc)),
      Directive(OgImageSelector, SetContentAttr(f.ogImage)),
      Directive(OgUrlSelector, SetContentAttr(f.ogUrl)),
      Directive(DescriptionSelector, SetContentAttr(f.ogDesc)) ]
  }

  /** The action registered for `sel`, if any (the first one). */
  function Bound(ds: seq<Directive>, sel: Selector): (r: Option<Action>)
    ensures r.Some? <==> exists i :: 0 <= i < |ds| && ds[i].selector == sel
    decreases |ds|
  {
    if ds == [] then None
    else if ds[0].selector == sel then Some(ds[0].action)
    else
      var r := Bound(ds[1..], sel);
      assert r.Some? ==> exists i :: 0 < i < |ds| && ds[i].selector == sel by {
        if r.Some? {
          var i :| 0 <= i < |ds[1..]| && ds[1..][i].selector == sel;
          assert ds[i + 1].selector == sel;
        }
      }
      r
  }

  /** The table: the title text and `og:title` get the title, both descriptions get the
      description, `og:image` the image and `og:url` the URL; nothing else is bound. */
  lemma CardTableBindings(f: Fields, sel: Selector)
    ensures Bound(CardDirectives(f), TitleSelector) == Some(ReplaceText(f.ogTitle))
    ensures Bound(CardDirectives(f), OgTitleSelector) == Some(SetContentAttr(f.ogTitle))
    ensures Bound(CardDirectives(f), OgDescriptionSelector) == Some(SetContentAttr(f.ogDesc))
    ensures Bound(CardDirectives(f), DescriptionSelector) == Some(SetContentAttr(f.ogDesc))
    ensures Bound(CardDirectives(f), OgImageSelector) == Some(SetContentAttr(f.ogImage))
    ensures Bound(CardDirectives(f), OgUrlSelector) == Some(SetContentAttr(f.ogUrl))
    ensures (sel !in {TitleSelector, OgTitleSelector, OgDescriptionSelector, DescriptionSelector,
                      OgImageSelector, OgUrlSelector}) ==> Bound(CardDirectives(f), sel).None?
  {
    var ds := CardDirectives(f);
    var d1 := ds[1..];
    var d2 := d1[1..];
    var d3 := d2[1..];
    var d4 := d3[1..];
    assert d4[1..][1..] == [];
    assert Bound(ds, OgTitleSelector) == Bound(d1, OgTitleSelector);
    assert Bound(ds, OgDescriptionSelector) == Bound(d1, OgDescriptionSelector) == Bound(d2, OgDescriptionSelector);
    assert Bound(ds, OgImageSelector) == Bound(d1, OgImageSelector) == Bound(d2, OgImageSelector) == Bound(d3, OgImageSelector);
    assert Bound(ds, OgUrlSelector) == Bound(d1, OgUrlSelector) == Bound(d2, OgUrlSelector)
      == Bound(d3, OgUrlSelector) == Bound(d4, OgUrlSelector);
    assert Bound(ds, DescriptionSelector) == Bound(d1, DescriptionSelector) == Bound(d2, DescriptionSelector)
      == Bound(d3, DescriptionSelector) == Bound(d4, DescriptionSelector) == Bound(d4[1..], DescriptionSelector);
  }

  predicate Matches(sel: Selector, el: Element) {
    match sel
    case Tag(name) => el.tag == name
    case TagWithAttr(name, attr, value) => el.tag == name && attr in el.attrs && el.attrs[attr] == value
  }

  /** One handler call on the element: a title handler folds over the element's chunks and
      sets its flag if there was one; a content handler sets `content`. */
  function Act(a: Action, el: Element, done: bool): (r: (Element, bool))
    ensures r.0.tag == el.tag
    ensures a.SetContentAttr? ==> r.0.text == el.text && r.1 == done
    ensures a.ReplaceText? ==> r.0.attrs == el.attrs && |r.0.text| == |el.text| && (r.1 <==> done || el.text != [])
  {
    match a
    case ReplaceText(t) => (el.(text := TitleFold(t, done, el.text)), done || el.text != [])
    case SetContentAttr(v) => (el.(attrs := SetContent(el.attrs, v)), done)
  }

  /** Every registration whose selector matches the element as parsed (`orig`) runs, in
      registration order, each with its own handler state in `flags`. */
  function Dispatch(orig: Element, cur: Element, ds: seq<Directive>, flags: seq<bool>): (r: (Element, seq<bool>))
    requires |flags| == |ds|
    ensures |r.1| == |ds|
    ensures r.0.tag == cur.tag
    decreases |ds|
  {
    if ds == [] then (cur, [])
    else
      var (next, f0) := if Matches(ds[0].selector, orig) then Act(ds[0].action, cur, flags[0]) else (cur, flags[0]);
      var (res, fs) := Dispatch(orig, next, ds[1..], flags[1..]);
      (res, [f0] + fs)
  }

  /** The single pass over the document: handler state carries from one element to the next. */
  function Stream(doc: seq<Element>, ds: seq<Directive>, flags: seq<bool>): (out: seq<Element>)
    requires |flags| == |ds|
    ensures |out| == |doc|
    ensures forall i :: 0 <= i < |doc| ==> out[i].tag == doc[i].tag
    decreases |doc|
  {
    if doc == [] then []
    else
      var (el, fl) := Dispatch(doc[0], doc[0], ds, flags);
      [el] + Stream(doc[1..], ds, fl)
  }

  /** `new HTMLRewriter().on(...)...transform(res)`: every handler starts fresh. */
  function Transform(doc: seq<Element>, ds: seq<Directive>): (out: seq<Element>)
    ensures |out| == |doc|
    ensures forall i :: 0 <= i < |doc| ==> out[i].tag == doc[i].tag
  {
    Stream(doc, ds, seq(|ds|, _ => false))
  }

  // ---- The card table in closed form ----

  /** The value the last matching content handler writes, if any handler matches. */
  function LastContent(e: Element, f: Fields): Option<string> {
    if Matches(DescriptionSelector, e) then Some(f.ogDesc)
    else if Matches(OgUrlSelector, e) then Some(f.ogUrl)
    else if Matches(OgImageSelector, e) then Some(f.ogImage)
    else if Matches(OgDescriptionSelector, e) then Some(f.ogDesc)
    else if Matches(OgTitleSelector, e) then Some(f.ogTitle)
    else None
  }

  function CardAttrs(e: Element, f: Fields): map<string, string> {
    match LastContent(e, f)
    case None => e.attrs
    case Some(v) => SetContent(e.attrs, v)
  }

  /** What the card handlers make of one element, given whether the title handler has
      already seen a chunk. */
  function CardElement(e: Element, f: Fields, seen: bool): Element {
    Element(e.tag, CardAttrs(e, f), if Matches(TitleSelector, e) then TitleFold(f.ogTitle, seen, e.text) else e.text)
  }

  /** The title handler's flag after an element. */
  function SeenAfter(e: Element, seen: bool): bool {
    seen || (Matches(TitleSelector, e) && e.text != [])
  }

  function CardStream(doc: seq<Element>, f: Fields, seen: bool): (out: seq<Element>)
    ensures |out| == |doc|
    decreases |doc|
  {
    if doc == [] then [] else [CardElement(doc[0], f, seen)] + CardStream(doc[1..], f, SeenAfter(doc[0], seen))
  }

  /** Setting `content` never changes which selector of the table an element matches. */
  lemma SetContentKeepsMatches(e: Element, v: string, sel: Selector)
    requires sel.TagWithAttr? ==> sel.attr != "content"
    ensures Matches(sel, e.(attrs := SetContent(e.attrs, v))) == Matches(sel, e)
  {
  }

  /** Dispatching the card table over one element gives the closed form, and only the
      title handler's flag can change. */
  lemma DispatchCard(e: Element, f: Fields, flags: seq<bool>)
    requires |flags| == 6
    ensures Dispatch(e, e, CardDirectives(f), flags) == (CardElement(e, f, flags[0]), [SeenAfter(e, flags[0])] + flags[1..])
  {
    var ds := CardDirectives(f);
    var (e1, g0) := if Matches(TitleSelector, e) then Act(ds[0].action, e, flags[0]) else (e, flags[0]);
    assert e1.attrs == e.attrs && g0 == SeenAfter(e, flags[0]);
    var a2 := if Matches(OgTitleSelector, e) then SetContent(e.attrs, f.ogTitle) else e.attrs;
    var a3 := if Matches(OgDescriptionSelector, e) then SetContent(a2, f.ogDesc) else a2;
    var a4 := if Matches(OgImageSelector, e) then SetContent(a3, f.ogImage) else a3;
    var a5 := if Matches(OgUrlSelector, e) then SetContent(a4, f.ogUrl) else a4;
    var a6 := if Matches(DescriptionSelector, e) then SetContent(a5, f.ogDesc) else a5;
    DispatchTail(e, e1, ds[1..], flags[1..], f);
    assert Dispatch(e, e, ds, flags) == (e1.(attrs := a6), [g0] + flags[1..]);
    LastWriteWins(e, f, a2, a3, a4, a5, a6);
  }

  /** The `content` writes of a run of content registrations matching `e`, in order. */
  function ContentFold(e: Element, attrs: map<string, string>, ds: seq<Directive>): map<string, string>
    decreases |ds|
  {
    if ds == [] then attrs
    else
      var next := if Matches(ds[0].selector, e) && ds[0].action.SetContentAttr? then SetContent(attrs, ds[0].action.value) else attrs;
      ContentFold(e, next, ds[1..])
  }

  /** Content registrations only write `content`, and their handlers keep no state. */
  lemma {:induction false} DispatchContents(e: Element, cur: Element, ds: seq<Directive>, flags: seq<bool>)
    requires |flags| == |ds|
    requires forall i :: 0 <= i < |ds| ==> ds[i].action.SetContentAttr?
    ensures Dispatch(e, cur, ds, flags) == (cur.(attrs := ContentFold(e, cur.attrs, ds)), flags)
    decreases |ds|
  {
    if ds != [] {
      var next := if Matches(ds[0].selector, e) then cur.(attrs := SetContent(cur.attrs, ds[0].action.value)) else cur;
      DispatchContents(e, next, ds[1..], flags[1..]);
      assert flags == [flags[0]] + flags[1..];
    }
  }

  /** The five content registrations applied in order to `cur`. */
  lemma DispatchTail(e: Element, cur: Element, rest: seq<Directive>, flags: seq<bool>, f: Fields)
    requires rest == CardDirectives(f)[1..] && |flags| == 5
    ensures
      var a2 := if Matches(OgTitleSelector, e) then SetContent(cur.attrs, f.ogTitle) else cur.attrs;
      var a3 := if Matches(OgDescriptionSelector, e) then SetContent(a2, f.ogDesc) else a2;
      var a4 := if Matches(OgImageSelector, e) then SetContent(a3, f.ogImage) else a3;
      var a5 := if Matches(OgUrlSelector, e) then SetContent(a4, f.ogUrl) else a4;
      var a6 := if Matches(DescriptionSelector, e) then SetContent(a5, f.ogDesc) else a5;
      Dispatch(e, cur, rest, flags) == (cur.(attrs := a6), flags)
  {
    DispatchContents(e, cur, rest, flags);
    var a2 := if Matches(OgTitleSelector, e) then SetContent(cur.attrs, f.ogTitle) else cur.attrs;
    var a3 := if Matches(OgDescriptionSelector, e) then SetContent(a2, f.ogDesc) else a2;
    var a4 := if Matches(OgImageSelector, e) then SetContent(a3, f.ogImage) else a3;
    var a5 := if Matches(OgUrlSelector, e) then SetContent(a4, f.ogUrl) else a4;
    var a6 := if Matches(DescriptionSelector, e) then SetContent(a5, f.ogDesc) else a5;
    var r1 := rest[1..];
    var r2 := r1[1..];
    var r3 := r2[1..];
    var r4 := r3[1..];
    assert r4[1..] == [];
    assert ContentFold(e, a6, r4[1..]) == a6;
    assert ContentFold(e, a5, r4) == a6;
    assert ContentFold(e, a4, r3) == a6;
    assert ContentFold(e, a3, r2) == a6;
    assert ContentFold(e, a2, r1) == a6;
    assert ContentFold(e, cur.attrs, rest) == a6;
  }

  /** Consecutive writes of `content` leave the last written value. */
  lemma LastWriteWins(e: Element, f: Fields, a2: map<string, string>, a3: map<string, string>,
                      a4: map<string, string>, a5: map<string, string>, a6: map<string, string>)
    requires a2 == if Matches(OgTitleSelector, e) then SetContent(e.attrs, f.ogTitle) else e.attrs
    requires a3 == if Matches(OgDescriptionSelector, e) then SetContent(a2, f.ogDesc) else a2
    requires a4 == if Matches(OgImageSelector, e) then SetContent(a3, f.ogImage) else a3
    requires a5 == if Matches(OgUrlSelector, e) then SetContent(a4, f.ogUrl) else a4
    requires a6 == if Matches(DescriptionSelector, e) then SetContent(a5, f.ogDesc) else a5
    ensures a6 == CardAttrs(e, f)
  {
    forall a, x, y ensures SetContent(SetContent(a, x), y) == SetContent(a, y) {
      SetContentOverwrites(a, x, y);
    }
  }

  /** The single pass with the card table is the closed form, element by element. */
  lemma {:induction false} StreamCard(doc: seq<Element>, f: Fields, flags: seq<bool>)
    requires |flags| == 6
    ensures Stream(doc, CardDirectives(f), flags) == CardStream(doc, f, flags[0])
    decreases |doc|
  {
    if doc != [] {
      DispatchCard(doc[0], f, flags);
      var fl := [SeenAfter(doc[0], flags[0])] + flags[1..];
      StreamCard(doc[1..], f, fl);
    }
  }

  lemma TransformCard(doc: seq<Element>, f: Fields)
    ensures Transform(doc, CardDirectives(f)) == CardStream(doc, f, false)
  {
    StreamCard(doc, f, seq(6, _ => false));
  }
  // ---- What the transform does to a document ----

  /** The text chunks of the `<title>` elements, in document order. */
  function TitleChunks(doc: seq<Element>): seq<string>
    decreases |doc|
  {
    if doc == [] then []
    else (if Matches(TitleSelector, doc[0]) then doc[0].text else []) + TitleChunks(doc[1..])
  }

  lemma {:induction false} CardStreamTitle(doc: seq<Element>, f: Fields, seen: bool)
    ensures TitleChunks(CardStream(doc, f, seen)) == TitleFold(f.ogTitle, seen, TitleChunks(doc))
    decreases |doc|
  {
    if doc != [] {
      var own := if Matches(TitleSelector, doc[0]) then doc[0].text else [];
      CardStreamTitle(doc[1..], f, SeenAfter(doc[0], seen));
      TitleFoldAppend(f.ogTitle, seen, own, TitleChunks(doc[1..]));
      var out := CardStream(doc, f, seen);
      assert out[0] == CardElement(doc[0], f, seen);
      assert out[1..] == CardStream(doc[1..], f, SeenAfter(doc[0], seen));
    }
  }

  /** The one title handler sees the chunks of every `<title>` element as one stream: a
      document with any title text shows the card title exactly once, in the first chunk,
      whatever number of `<title>` elements and chunks it has. */
  lemma TransformTitleOnce(doc: seq<Element>, f: Fields)
    ensures TitleChunks(Transform(doc, CardDirectives(f))) == TitleFold(f.ogTitle, false, TitleChunks(doc))
    ensures Concat(TitleChunks(Transform(doc, CardDirectives(f)))) == if TitleChunks(doc) != [] then f.ogTitle else ""
  {
    TransformCard(doc, f);
    CardStreamTitle(doc, f, false);
    TitleFoldEmitsOnce(f.ogTitle, false, TitleChunks(doc));
  }

  lemma {:induction false} CardStreamAt(doc: seq<Element>, f: Fields, seen: bool, i: nat)
    requires i < |doc|
    ensures CardStream(doc, f, seen)[i] == CardElement(doc[i], f, seen || TitleChunks(doc[..i]) != [])
    decreases i
  {
    if i > 0 {
      CardStreamAt(doc[1..], f, SeenAfter(doc[0], seen), i - 1);
      var front := doc[..i];
      assert front[0] == doc[0];
      assert front[1..] == doc[1..][..i - 1];
    } else {
      assert doc[..0] == [];
    }
  }

  /** Element by element: the tag is kept; every attribute but `content` is kept;
      `content` gets the value of the last registered selector the element matches, and
      is left alone when it matches none; a `<title>`'s chunks become the card title in
      the first chunk of the document's title text and empty strings elsewhere; any other
      element's text is kept. */
  lemma TransformElement(doc: seq<Element>, f: Fields, i: nat)
    requires i < |doc|
    ensures var out := Transform(doc, CardDirectives(f))[i];
      && out.tag == doc[i].tag
      && (forall k :: k != "content" ==> (k in out.attrs <==> k in doc[i].attrs))
      && (forall k :: k != "content" && k in doc[i].attrs ==> out.attrs[k] == doc[i].attrs[k])
      && (LastContent(doc[i], f).Some? ==> "content" in out.attrs && out.attrs["content"] == LastContent(doc[i], f).value)
      && (LastContent(doc[i], f).None? ==> out.attrs == doc[i].attrs)
      && (!Matches(TitleSelector, doc[i]) ==> out.text == doc[i].text)
      && (Matches(TitleSelector, doc[i]) ==> out.text == TitleFold(f.ogTitle, TitleChunks(doc[..i]) != [], doc[i].text))
  {
    TransformCard(doc, f);
    CardStreamAt(doc, f, false, i);
  }

  /** The content a `<meta>` ends with: `name="description"` wins over its `property`,
      since that registration comes last; otherwise the `property` decides. */
  lemma ContentPrecedence(e: Element, f: Fields)
    ensures Matches(DescriptionSelector, e) ==> LastContent(e, f) == Some(f.ogDesc)
    ensures !Matches(DescriptionSelector, e) && Matches(OgImageSelector, e) ==> LastContent(e, f) == Some(f.ogImage)
    ensures !Matches(DescriptionSelector, e) && Matches(OgTitleSelector, e) ==> LastContent(e, f) == Some(f.ogTitle)
    ensures !Matches(DescriptionSelector, e) && Matches(OgDescriptionSelector, e) ==> LastContent(e, f) == Some(f.ogDesc)
    ensures !Matches(DescriptionSelector, e) && Matches(OgUrlSelector, e) ==> LastContent(e, f) == Some(f.ogUrl)
    ensures LastContent(e, f).Some? <==> (e.tag == "meta" &&
      (("name" in e.attrs && e.attrs["name"] == "description") ||
       ("property" in e.attrs && e.attrs["property"] in {"og:title", "og:description", "og:image", "og:url"})))
  {
  }

  /** The card handlers leave an element's matches alone, so running them over their own
      output changes nothing. */
  lemma CardElementStable(e: Element, f: Fields, seen: bool)
    ensures var e' := CardElement(e, f, seen);
      CardElement(e', f, seen) == e' && SeenAfter(e', seen) == SeenAfter(e, seen)
  {
    var e' := CardElement(e, f, seen);
    if LastContent(e, f).Some? {
      var v := LastContent(e, f).value;
      SetContentKeepsMatches(e, v, OgTitleSelector);
      SetContentKeepsMatches(e, v, OgDescriptionSelector);
      SetContentKeepsMatches(e, v, OgImageSelector);
      SetContentKeepsMatches(e, v, OgUrlSelector);
      SetContentKeepsMatches(e, v, DescriptionSelector);
      SetContentOverwrites(e.attrs, v, v);
    }
    assert LastContent(e', f) == LastContent(e, f);
    if Matches(TitleSelector, e) {
      TitleFoldStable(f.ogTitle, seen, e.text, e'.text);
    }
  }

  lemma {:induction false} CardStreamStable(doc: seq<Element>, f: Fields, seen: bool)
    ensures CardStream(CardStream(doc, f, seen), f, seen) == CardStream(doc, f, seen)
    decreases |doc|
  {
    if doc != [] {
      var out := CardStream(doc, f, seen);
      CardElementStable(doc[0], f, seen);
      CardStreamStable(doc[1..], f, SeenAfter(doc[0], seen));
      assert out[0] == CardElement(doc[0], f, seen);
      assert out[1..] == CardStream(doc[1..], f, SeenAfter(doc[0], seen));
    }
  }

  /** Rewriting a page already rewritten for the same card gives the same page. */
  lemma TransformIdempotent(doc: seq<Element>, f: Fields)
    ensures Transform(Transform(doc, CardDirectives(f)), CardDirectives(f)) == Transform(doc, CardDirectives(f))
  {
    TransformCard(doc, f);
    TransformCard(Transform(doc, CardDirectives(f)), f);
    CardStreamStable(doc, f, false);
  }

  // ---- The table without a working title handler ----

  /** The content registrations alone, applied to one element. */
  lemma DispatchContentCard(e: Element, f: Fields, flags: seq<bool>)
    requires |flags| == 5
    ensures Dispatch(e, e, CardDirectives(f)[1..], flags) == (e.(attrs := CardAttrs(e, f)), flags)
  {
    var a2 := if Matches(OgTitleSelector, e) then SetContent(e.attrs, f.ogTitle) else e.attrs;
    var a3 := if Matches(OgDescriptionSelector, e) then SetContent(a2, f.ogDesc) else a2;
    var a4 := if Matches(OgImageSelector, e) then SetContent(a3, f.ogImage) else a3;
    var a5 := if Matches(OgUrlSelector, e) then SetContent(a4, f.ogUrl) else a4;
    var a6 := if Matches(DescriptionSelector, e) then SetContent(a5, f.ogDesc) else a5;
    DispatchTail(e, e, CardDirectives(f)[1..], flags, f);
    LastWriteWins(e, f, a2, a3, a4, a5, a6);
  }

  lemma {:induction false} StreamContentCard(doc: seq<Element>, f: Fields, flags: seq<bool>)
    requires |flags| == 5
    ensures var out := Stream(doc, CardDirectives(f)[1..], flags);
      forall i :: 0 <= i < |doc| ==> out[i] == doc[i].(attrs := CardAttrs(doc[i], f))
    decreases |doc|
  {
    if doc != [] {
      DispatchContentCard(doc[0], f, flags);
      StreamContentCard(doc[1..], f, flags);
      var out := Stream(doc, CardDirectives(f)[1..], flags);
      assert out[1..] == Stream(doc[1..], CardDirectives(f)[1..], flags);
      forall i | 0 < i < |doc| ensures out[i] == doc[i].(attrs := CardAttrs(doc[i], f)) {
        assert out[i] == out[1..][i - 1];
      }
    }
  }

  /** Without the title registration, the page is the fully rewritten page with every
      element's text as it was: the `<meta>` tags are rewritten, the title is not. */
  lemma TransformWithoutTitle(doc: seq<Element>, f: Fields)
    ensures var skipped := Transform(doc, CardDirectives(f)[1..]);
      var full := Transform(doc, CardDirectives(f));
      && |skipped| == |doc|
      && (forall i :: 0 <= i < |doc| ==> skipped[i] == full[i].(text := doc[i].text))
      && TitleChunks(skipped) == TitleChunks(doc)
  {
    var skipped := Transform(doc, CardDirectives(f)[1..]);
    var full := Transform(doc, CardDirectives(f));
    StreamContentCard(doc, f, seq(5, _ => false));
    TransformCard(doc, f);
    forall i | 0 <= i < |doc| ensures skipped[i] == full[i].(text := doc[i].text) {
      CardStreamAt(doc, f, false, i);
    }
    TitleChunksIgnoreAttrs(doc, skipped);
  }

  /** The title text of a document depends only on its elements' tags and text. */
  lemma {:induction false} TitleChunksIgnoreAttrs(doc: seq<Element>, other: seq<Element>)
    requires |other| == |doc|
    requires forall i :: 0 <= i < |doc| ==> other[i].tag == doc[i].tag && other[i].text == doc[i].text
    ensures TitleChunks(other) == TitleChunks(doc)
    decreases |doc|
  {
    if doc != [] {
      TitleChunksIgnoreAttrs(doc[1..], other[1..]);
    }
  }
}
