/** The usual optional value, and a value or the reason there is none. */
module Options {
  datatype Option<+T> = None | Some(value: T)
  datatype Result<+T, +E> = Ok(value: T) | Err(error: E)
}

/** The records of `artisans.json` and the worker's lookup,
    `data.artisans.find(a => a.id === id) || null`. */
module Artisans {
  import opened Options

  /** A property read off a parsed JSON object: missing (`undefined`), `null`, or a string.
      Other JSON value kinds are not modelled. */
  datatype Field = Absent | Null | Text(value: string)

  /** One entry of the `artisans` array. */
  datatype Artisan = Artisan(id: Field, name: Field, title: Field, tagline: Field, bio: Field, avatar: Field)

  /** `a.id === id`: strict equality, so only a string id equal to the requested one
      character for character matches (no trimming, no case folding, no number coercion). */
  predicate HasId(a: Artisan, id: string) {
    a.id == Text(id)
  }

  /** The index `Array.prototype.find` stops at: the first artisan with the id. */
  function FindIndex(artisans: seq<Artisan>, id: string): (r: Option<nat>)
    ensures r.Some? ==> r.value < |artisans| && HasId(artisans[r.value], id)
    ensures r.Some? ==> forall j :: 0 <= j < r.value ==> !HasId(artisans[j], id)
    ensures r.None? <==> forall j :: 0 <= j < |artisans| ==> !HasId(artisans[j], id)
  {
    if artisans == [] then None
    else if HasId(artisans[0], id) then Some(0)
    else match FindIndex(artisans[1..], id)
      case None => None
      case Some(i) => Some(i + 1)
  }

  /** `artisans.find(a => a.id === id) || null`, with `null` as `None`. */
  function Find(artisans: seq<Artisan>, id: string): (r: Option<Artisan>)
    ensures r.Some? ==> r.value in artisans && HasId(r.value, id)
    ensures r.None? <==> forall j :: 0 <= j < |artisans| ==> !HasId(artisans[j], id)
  {
    match FindIndex(artisans, id)
    case None => None
    case Some(i) => Some(artisans[i])
  }

  /** Lookup finds a record exactly when some record has the id, and what it finds is
      the first such record. */
  lemma FindIsFirstMatch(artisans: seq<Artisan>, id: string)
    ensures Find(artisans, id).Some? <==> exists j :: 0 <= j < |artisans| && HasId(artisans[j], id)
    ensures Find(artisans, id).Some? ==>
      exists i :: 0 <= i < |artisans| && Find(artisans, id).value == artisans[i]
        && HasId(artisans[i], id) && forall j :: 0 <= j < i ==> !HasId(artisans[j], id)
  {
    match FindIndex(artisans, id)
    case None =>
    case Some(i) =>
      assert HasId(artisans[i], id);
  }

  /** One step of the search: the head if it has the id, otherwise the search of the rest. */
  lemma FindStep(artisans: seq<Artisan>, id: string)
    requires artisans != []
    ensures Find(artisans, id) == if HasId(artisans[0], id) then Some(artisans[0]) else Find(artisans[1..], id)
  {
    if !HasId(artisans[0], id) {
      match FindIndex(artisans[1..], id)
      case None =>
      case Some(i) => assert artisans[1..][i] == artisans[i + 1];
    }
  }

  /** The search stops at the first match: records after it are never looked at, and
      records before it without the id do not matter. */
  lemma {:induction false} FindAppend(front: seq<Artisan>, back: seq<Artisan>, id: string)
    ensures Find(front + back, id) == if Find(front, id).Some? then Find(front, id) else Find(back, id)
    decreases |front|
  {
    if front != [] {
      assert (front + back)[1..] == front[1..] + back;
      FindStep(front + back, id);
      FindStep(front, id);
      FindAppend(front[1..], back, id);
    } else {
      assert front + back == back;
    }
  }
}
