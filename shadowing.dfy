/** JavaScript property lookup on a `TitleRewriter` instance, enough to show what the
    runtime finds under the name `text`: an instance's own properties are looked up
    before its prototype's, so the constructor's assignment to `this.text` hides the
    class's `text(chunk)` method. */
module Shadowing {
  import opened Options

  /** The kinds of property value involved: a string, a boolean, or a method. */
  datatype Value = Str(s: string) | Flag(b: bool) | Method(name: string)

  /** An object: its own properties and those of its prototype (one level suffices). */
  datatype Object = Object(own: map<string, Value>, proto: map<string, Value>)

  /** `o[key]`: the own property if there is one, otherwise the prototype's. */
  function Get(o: Object, key: string): (r: Option<Value>)
    ensures key in o.own ==> r == Some(o.own[key])
    ensures key !in o.own ==> (r.Some? <==> key in o.proto) && (r.Some? ==> r.value == o.proto[key])
  {
    if key in o.own then Some(o.own[key])
    else if key in o.proto then Some(o.proto[key])
    else None
  }

  /** Whether `o[key]` is a method the runtime can call. */
  predicate Callable(o: Object, key: string) {
    Get(o, key).Some? && Get(o, key).value.Method?
  }

  /** The prototype the class declaration gives its instances. */
  const TitleRewriterPrototype: map<string, Value> := map["text" := Method("text")]

  /** `new TitleRewriter(text)` with the constructor storing the text under `key`: the
      code as written uses `key == "text"`. */
  function NewTitleRewriter(key: string, text: string): (o: Object)
    requires key != "done"
    ensures o.proto == TitleRewriterPrototype
    ensures Get(o, key) == Some(Str(text)) && Get(o, "done") == Some(Flag(false))
  {
    Object(map[key := Str(text), "done" := Flag(false)], TitleRewriterPrototype)
  }

  /** As written, `handler.text` is the stored string, not the chunk callback, for every
      title: the callback the class declares is unreachable through the instance. */
  lemma AsWrittenTextIsNotCallable(text: string)
    ensures Get(NewTitleRewriter("text", text), "text") == Some(Str(text))
    ensures !Callable(NewTitleRewriter("text", text), "text")
    ensures "text" in TitleRewriterPrototype && TitleRewriterPrototype["text"].Method?
  {
  }

  /** With the text stored under any name other than `text` (say `title`), `handler.text`
      is the callback again and the instance still holds the text and a clear flag. */
  lemma CorrectedTextIsCallable(key: string, text: string)
    requires key != "text" && key != "done"
    ensures Callable(NewTitleRewriter(key, text), "text")
    ensures Get(NewTitleRewriter(key, text), key) == Some(Str(text))
  {
  }

  /** In general an own property hides every prototype member of the same name, so a
      handler may not store state under the name of one of its callbacks. */
  lemma OwnPropertyHides(o: Object, key: string)
    requires key in o.own && !o.own[key].Method?
    ensures !Callable(o, key)
  {
  }
}
