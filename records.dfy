/**
 * A JavaScript object seen as an ordered table of its own properties:
 * one `(key, value)` entry per key, in enumeration order.  Keys of an object
 * are unique, which is the invariant `WellFormed` states; every operation of
 * the toolkit takes and returns well-formed records.
 */
module Records {

  /** A string property key (symbol keys are not modelled). */
  type Key = string

  datatype Option<+T> = None | Some(value: T)

  /** An object's own properties in `Object.keys` order. */
  type Record<V> = seq<(Key, V)>

  function Init<T>(s: seq<T>): seq<T>
    requires s != []
  {
    s[..|s| - 1]
  }

  function Last<T>(s: seq<T>): T
    requires s != []
  {
    s[|s| - 1]
  }

  /** `Object.keys(r)`. */
  function Keys<V>(r: Record<V>): seq<Key> {
    seq(|r|, i requires 0 <= i < |r| => r[i].0)
  }

  /** No key occurs twice. */
  predicate WellFormed<V>(r: Record<V>) {
    forall i, j | 0 <= i < j < |r| :: r[i].0 != r[j].0
  }

  lemma KeysSnoc<V>(r: Record<V>, e: (Key, V))
    ensures Keys(r + [e]) == Keys(r) + [e.0]
  {
  }

  lemma SnocParts<T>(s: seq<T>)
    requires s != []
    ensures s == Init(s) + [Last(s)]
  {
  }

  /** The property read `r[k]`: the value stored under `k`, if any. */
  function Lookup<V>(r: Record<V>, k: Key): (o: Option<V>)
    ensures o.None? <==> k !in Keys(r)
    ensures o.Some? ==> (k, o.value) in r
  {
    if r == [] then None
    else
      SnocParts(r);
      KeysSnoc(Init(r), Last(r));
      if Last(r).0 == k then Some(Last(r).1) else Lookup(Init(r), k)
  }

  /**
   * The property write `r[k] = v`: an existing key keeps its place and takes
   * the new value, a new key is added last.
   */
  function Assign<V>(r: Record<V>, k: Key, v: V): (r': Record<V>)
    ensures (k, v) in r'
    ensures forall e | e in r' :: e == (k, v) || (e.0 != k && e in r)
    ensures forall e | e in r && e.0 != k :: e in r'
    ensures k !in Keys(r) ==> r' == r + [(k, v)]
    ensures k in Keys(r) ==> Keys(r') == Keys(r)
    ensures WellFormed(r) ==> WellFormed(r')
  {
    if k in Keys(r) then
      var r' := seq(|r|, i requires 0 <= i < |r| => if r[i].0 == k then (k, v) else r[i]);
      assert Keys(r') == Keys(r);
      assert (k, v) in r' by {
        var i :| 0 <= i < |r| && Keys(r)[i] == k;
        assert r'[i] == (k, v);
      }
      assert forall e | e in r && e.0 != k :: e in r' by {
        forall e | e in r && e.0 != k ensures e in r' {
          var i :| 0 <= i < |r| && r[i] == e;
          assert r'[i] == e;
        }
      }
      r'
    else
      KeysSnoc(r, (k, v));
      assert forall e | e in r :: e.0 != k by {
        forall e | e in r ensures e.0 != k {
          var i :| 0 <= i < |r| && r[i] == e;
          assert Keys(r)[i] == e.0;
        }
      }
      assert WellFormed(r) ==> WellFormed(r + [(k, v)]) by {
        if WellFormed(r) { AppendFresh(r, (k, v)); }
      }
      r + [(k, v)]
  }

  /** In a well-formed record a key determines its value. */
  lemma UniqueValue<V>(r: Record<V>, k: Key, v: V, v': V)
    requires WellFormed(r)
    requires (k, v) in r && (k, v') in r
    ensures v == v'
  {
  }

  /** On well-formed records, a successful read and membership coincide. */
  lemma LookupMember<V>(r: Record<V>, k: Key, v: V)
    requires WellFormed(r)
    ensures Lookup(r, k) == Some(v) <==> (k, v) in r
  {
  }

  /** Appending an entry under a key not yet present keeps keys unique. */
  lemma AppendFresh<V>(r: Record<V>, e: (Key, V))
    requires WellFormed(r) && e.0 !in Keys(r)
    ensures WellFormed(r + [e])
  {
    forall i | 0 <= i < |r| ensures r[i].0 != e.0 {
      assert Keys(r)[i] == r[i].0;
    }
  }

  /**
   * Entry `i` of a well-formed record is fresh for any record built only
   * from entries before it.
   */
  lemma FreshKey<V>(sub: Record<V>, r: Record<V>, i: int)
    requires WellFormed(r) && 0 <= i < |r|
    requires forall e :: e in sub ==> e in r[..i]
    ensures r[i].0 !in Keys(sub)
  {
    forall j | 0 <= j < |sub| ensures Keys(sub)[j] != r[i].0 {
      assert sub[j] in r[..i];
      var m :| 0 <= m < i && r[..i][m] == sub[j];
      assert r[m] == sub[j];
    }
  }

  /** `a` is `b` with some entries dropped and the order of the rest kept. */
  ghost predicate IsSubsequence<T>(a: seq<T>, b: seq<T>)
    decreases |b|
  {
    if a == [] then true
    else if b == [] then false
    else if Last(a) == Last(b) then IsSubsequence(Init(a), Init(b))
    else IsSubsequence(a, Init(b))
  }

  lemma {:induction false} SubsequenceExtend<T>(a: seq<T>, b: seq<T>, e: T)
    requires IsSubsequence(a, b)
    ensures IsSubsequence(a, b + [e])
    decreases |b|, 1
  {
    SnocParts(b + [e]);
    assert Init(b + [e]) == b;
    if a != [] && Last(a) == e {
      SubsequenceDropLast(a, b);
    }
  }

  lemma {:induction false} SubsequenceDropLast<T>(a: seq<T>, b: seq<T>)
    requires a != [] && IsSubsequence(a, b)
    ensures IsSubsequence(Init(a), b)
    decreases |b|, 0
  {
    SnocParts(b);
    if Last(a) == Last(b) {
      SubsequenceExtend(Init(a), Init(b), Last(b));
    } else {
      SubsequenceDropLast(a, Init(b));
      SubsequenceExtend(Init(a), Init(b), Last(b));
    }
  }
}
