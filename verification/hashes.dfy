/** The Ruby values the request builders produce and the response bodies the client unwraps:
    strings, symbols, `nil`, arrays and insertion-ordered hashes. A hash is an association
    list; Ruby keeps its keys pairwise distinct. */
module Hashes {
  import opened Wrappers

  datatype Value =
    | Nil
    | Str(s: string)
    | Sym(name: string)
    | List(items: seq<Value>)
    | Hash(entries: seq<(Value, Value)>)

  /** The keys of an association list, in insertion order. */
  function Keys(entries: seq<(Value, Value)>): (ks: seq<Value>)
    ensures |ks| == |entries|
    ensures forall i :: 0 <= i < |entries| ==> ks[i] == entries[i].0
  {
    seq(|entries|, i requires 0 <= i < |entries| => entries[i].0)
  }

  /** Keys occur at most once, as in every Ruby hash. */
  predicate DistinctKeys(entries: seq<(Value, Value)>)
  {
    forall i, j :: 0 <= i < j < |entries| ==> entries[i].0 != entries[j].0
  }

  /** Ruby's `h[k]`: the value stored under `k`, or None when `k` is absent. */
  function Lookup(entries: seq<(Value, Value)>, k: Value): (r: Option<Value>)
    ensures r.Some? <==> k in Keys(entries)
  {
    if entries == [] then None
    else if entries[0].0 == k then Some(entries[0].1)
    else
      assert Keys(entries) == [entries[0].0] + Keys(entries[1..]);
      Lookup(entries[1..], k)
  }

  /** In a hash with distinct keys, `h[k]` gives the value stored beside `k`. */
  lemma {:induction false} LookupStored(entries: seq<(Value, Value)>, i: nat)
    requires DistinctKeys(entries)
    requires i < |entries|
    ensures Lookup(entries, entries[i].0) == Some(entries[i].1)
  {
    if i > 0 {
      LookupStored(entries[1..], i - 1);
    }
  }

  /** Ruby's `h[k] = v`: an existing key keeps its position and takes the new value; a new
      key is appended at the end. */
  function Put(entries: seq<(Value, Value)>, k: Value, v: Value): (r: seq<(Value, Value)>)
    ensures k in Keys(entries) ==> Keys(r) == Keys(entries)
    ensures k !in Keys(entries) ==> r == entries + [(k, v)]
    ensures forall i :: 0 <= i < |entries| && entries[i].0 != k ==> r[i] == entries[i]
  {
    if k in Keys(entries) then
      seq(|entries|, i requires 0 <= i < |entries| => if entries[i].0 == k then (k, v) else entries[i])
    else
      entries + [(k, v)]
  }

  /** Assignment seen one entry at a time: the head is replaced when it carries the key,
      and the rest is assigned in turn unless the key occurred only at the head. */
  lemma PutUnfold(entries: seq<(Value, Value)>, k: Value, v: Value)
    requires entries != []
    ensures Put(entries, k, v)[0] == if entries[0].0 == k then (k, v) else entries[0]
    ensures Put(entries, k, v)[1..] ==
      if entries[0].0 == k && k !in Keys(entries[1..]) then entries[1..] else Put(entries[1..], k, v)
  {
    var rest := entries[1..];
    assert Keys(entries) == [entries[0].0] + Keys(rest);
  }

  /** After `h[k] = v`, reading `h[k]` gives `v`. */
  lemma {:induction false} PutLookup(entries: seq<(Value, Value)>, k: Value, v: Value)
    ensures Lookup(Put(entries, k, v), k) == Some(v)
  {
    if entries != [] {
      PutUnfold(entries, k, v);
      if entries[0].0 != k {
        PutLookup(entries[1..], k, v);
      }
    }
  }

  /** Assignment keeps the keys of a hash distinct. */
  lemma PutKeepsDistinct(entries: seq<(Value, Value)>, k: Value, v: Value)
    requires DistinctKeys(entries)
    ensures DistinctKeys(Put(entries, k, v))
  {
    var r := Put(entries, k, v);
    if k in Keys(entries) {
      assert forall i :: 0 <= i < |r| ==> r[i].0 == Keys(r)[i];
    }
  }

  /** Assignment leaves every other key's value alone. */
  lemma {:induction false} PutOtherKey(entries: seq<(Value, Value)>, k: Value, v: Value, k': Value)
    requires k' != k
    ensures Lookup(Put(entries, k, v), k') == Lookup(entries, k')
  {
    if entries != [] {
      PutUnfold(entries, k, v);
      if !(entries[0].0 == k && k !in Keys(entries[1..])) {
        PutOtherKey(entries[1..], k, v, k');
      }
    }
  }

  /** Ruby's `h.fetch(k)` on a value: a hash raises KeyError when `k` is absent; an array
      raises TypeError, since the keys here are never integers; strings, symbols and nil
      have no `fetch` and raise NoMethodError. */
  datatype FetchError = KeyError(key: Value) | TypeError | NoMethodError

  function Fetch(h: Value, k: Value): (r: Result<Value, FetchError>)
    ensures r.Success? <==> h.Hash? && k in Keys(h.entries)
    ensures r.Success? ==> Lookup(h.entries, k) == Some(r.value)
    ensures h.Hash? && k !in Keys(h.entries) ==> r == Failure(KeyError(k))
    ensures r == Failure(TypeError) <==> h.List?
    ensures r == Failure(NoMethodError) <==> !h.Hash? && !h.List?
  {
    match h
    case Hash(entries) =>
      (match Lookup(entries, k)
       case Some(v) => Success(v)
       case None => Failure(KeyError(k)))
    case List(_) => Failure(TypeError)
    case _ => Failure(NoMethodError)
  }

  /** A chain of `fetch` calls, stopping at the first one that raises. */
  function FetchPath(h: Value, path: seq<Value>): Result<Value, FetchError>
    decreases |path|
  {
    if path == [] then Success(h)
    else match Fetch(h, path[0])
      case Failure(e) => Failure(e)
      case Success(v) => FetchPath(v, path[1..])
  }
}
