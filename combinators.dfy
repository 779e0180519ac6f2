/**
 * The record combinators of `obby`: `filter`, `split`, `map`, `pick` and
 * `omit`.  Each walks `Object.keys(input)` in order and writes into a fresh
 * accumulator object; the methods keep that loop, and the functions
 * `Filtered` and `Mapped` give what the loop computes.
 */
module Combinators {
  import opened Records

  /** The entries of `r` on which `p` holds, in their order in `r`. */
  function Filtered<V>(r: Record<V>, p: (Key, V) -> bool): (s: Record<V>)
    ensures |s| <= |r|
  {
    if r == [] then []
    else Filtered(Init(r), p) + if p(Last(r).0, Last(r).1) then [Last(r)] else []
  }

  /** The predicate `filterFn` negated: what `split` sends to its second record. */
  function Negate<V>(p: (Key, V) -> bool): (Key, V) -> bool {
    (k, v) => !p(k, v)
  }

  /** The predicate `pick` (and `omit`, as written) hands to `filter`: the key is listed. */
  function KeyIn<V>(keys: seq<Key>): (Key, V) -> bool {
    (k, v) => k in keys
  }

  /**
   * The result of `map`: starting from `{}`, each entry in turn is rewritten
   * by `f` and written with `result[K] = V`, so a later write to the same
   * key replaces the earlier value.
   */
  function Mapped<V, W>(r: Record<V>, f: (Key, V) -> (Key, W)): (m: Record<W>)
    ensures WellFormed(m)
  {
    if r == [] then []
    else
      var out := f(Last(r).0, Last(r).1);
      Assign(Mapped(Init(r), f), out.0, out.1)
  }

  /** `filter` keeps exactly the entries of the input that satisfy the predicate. */
  lemma {:induction false} FilteredMembers<V>(r: Record<V>, p: (Key, V) -> bool)
    ensures forall e | e in Filtered(r, p) :: e in r && p(e.0, e.1)
    ensures forall e | e in r && p(e.0, e.1) :: e in Filtered(r, p)
  {
    if r != [] {
      FilteredMembers(Init(r), p);
      SnocParts(r);
    }
  }

  /** `filter` keeps the input's order. */
  lemma {:induction false} FilteredKeepsOrder<V>(r: Record<V>, p: (Key, V) -> bool)
    ensures IsSubsequence(Filtered(r, p), r)
  {
    if r != [] {
      var s := Filtered(Init(r), p);
      FilteredKeepsOrder(Init(r), p);
      SnocParts(r);
      if p(Last(r).0, Last(r).1) {
        SnocParts(s + [Last(r)]);
        assert Init(s + [Last(r)]) == s;
      } else {
        assert Filtered(r, p) == s;
        SubsequenceExtend(s, Init(r), Last(r));
      }
    }
  }

  /** `filter` of a well-formed record is well-formed. */
  lemma {:induction false} FilteredWellFormed<V>(r: Record<V>, p: (Key, V) -> bool)
    requires WellFormed(r)
    ensures WellFormed(Filtered(r, p))
  {
    if r != [] {
      FilteredWellFormed(Init(r), p);
      if p(Last(r).0, Last(r).1) {
        FilteredMembers(Init(r), p);
        FreshKey(Filtered(Init(r), p), r, |r| - 1);
        AppendFresh(Filtered(Init(r), p), Last(r));
      }
    }
  }

  /** An always-true predicate keeps the whole input. */
  lemma {:induction false} FilterAll<V>(r: Record<V>, p: (Key, V) -> bool)
    requires forall k, v :: p(k, v)
    ensures Filtered(r, p) == r
  {
    if r != [] {
      FilterAll(Init(r), p);
      SnocParts(r);
    }
  }

  /** An always-false predicate keeps nothing. */
  lemma {:induction false} FilterNone<V>(r: Record<V>, p: (Key, V) -> bool)
    requires forall k, v :: !p(k, v)
    ensures Filtered(r, p) == []
  {
    if r != [] {
      FilterNone(Init(r), p);
    }
  }

  /**
   * The two records of `split` partition the input: every entry is in
   * exactly one of them, so their sizes add up and no key is in both.
   */
  lemma {:induction false} SplitPartition<V>(r: Record<V>, p: (Key, V) -> bool)
    requires WellFormed(r)
    ensures forall e | e in r :: e in Filtered(r, p) || e in Filtered(r, Negate(p))
    ensures forall e | e in Filtered(r, p) :: e in r
    ensures forall e | e in Filtered(r, Negate(p)) :: e in r
    ensures forall k | k in Keys(Filtered(r, p)) :: k !in Keys(Filtered(r, Negate(p)))
    ensures |Filtered(r, p)| + |Filtered(r, Negate(p))| == |r|
  {
    FilteredMembers(r, p);
    FilteredMembers(r, Negate(p));
    SplitSizes(r, p);
    forall k | k in Keys(Filtered(r, p)) ensures k !in Keys(Filtered(r, Negate(p))) {
      var a, b := Filtered(r, p), Filtered(r, Negate(p));
      var i :| 0 <= i < |a| && Keys(a)[i] == k;
      if k in Keys(b) {
        var j :| 0 <= j < |b| && Keys(b)[j] == k;
        assert a[i] in a && b[j] in b;
        UniqueValue(r, k, a[i].1, b[j].1);
        assert false;
      }
    }
  }

  lemma {:induction false} SplitSizes<V>(r: Record<V>, p: (Key, V) -> bool)
    ensures |Filtered(r, p)| + |Filtered(r, Negate(p))| == |r|
  {
    if r != [] {
      SplitSizes(Init(r), p);
    }
  }

  /** Entry `i` of `r` is the last one `f` writes under its output key `k`, with value `w`. */
  ghost predicate LastWrite<V, W>(r: Record<V>, f: (Key, V) -> (Key, W), i: int, k: Key, w: W) {
    && 0 <= i < |r|
    && f(r[i].0, r[i].1) == (k, w)
    && forall j | i < j < |r| :: f(r[j].0, r[j].1).0 != k
  }

  /**
   * Last write wins: `map` holds `(k, w)` exactly when some entry is mapped
   * to `(k, w)` and no later entry is mapped to key `k`.
   */
  lemma {:induction false} MappedLastWriteWins<V, W>(r: Record<V>, f: (Key, V) -> (Key, W), k: Key, w: W)
    ensures (k, w) in Mapped(r, f) <==> exists i :: LastWrite(r, f, i, k, w)
  {
    if r != [] {
      var n := |r| - 1;
      var r0 := Init(r);
      var out := f(r[n].0, r[n].1);
      MappedLastWriteWins(r0, f, k, w);
      if k == out.0 {
        if w == out.1 {
          assert LastWrite(r, f, n, k, w);
        }
        forall i | LastWrite(r, f, i, k, w) ensures i == n {
        }
      } else {
        forall i | LastWrite(r0, f, i, k, w) ensures LastWrite(r, f, i, k, w) {
        }
        forall i | LastWrite(r, f, i, k, w) ensures LastWrite(r0, f, i, k, w) {
        }
      }
    }
  }

  /** The keys of `map`'s result are exactly the keys `f` produces. */
  lemma {:induction false} MappedKeys<V, W>(r: Record<V>, f: (Key, V) -> (Key, W), k: Key)
    ensures k in Keys(Mapped(r, f)) <==> exists i | 0 <= i < |r| :: f(r[i].0, r[i].1).0 == k
  {
    if r != [] {
      var n := |r| - 1;
      var out := f(r[n].0, r[n].1);
      var m0 := Mapped(Init(r), f);
      MappedKeys(Init(r), f, k);
      if out.0 !in Keys(m0) {
        KeysSnoc(m0, out);
      }
      if k != out.0 {
        forall i | 0 <= i < |r| && f(r[i].0, r[i].1).0 == k ensures i < n && f(Init(r)[i].0, Init(r)[i].1).0 == k {
        }
      } else {
        assert f(r[n].0, r[n].1).0 == k;
        assert (k, out.1) in Mapped(r, f);
        var j :| 0 <= j < |Mapped(r, f)| && Mapped(r, f)[j] == (k, out.1);
        assert Keys(Mapped(r, f))[j] == k;
      }
    }
  }

  /** `map` with an `f` that returns every entry unchanged returns the input. */
  lemma {:induction false} MappedIdentity<V>(r: Record<V>, f: (Key, V) -> (Key, V))
    requires WellFormed(r)
    requires forall k, v :: f(k, v) == (k, v)
    ensures Mapped(r, f) == r
  {
    if r != [] {
      assert WellFormed(Init(r));
      MappedIdentity(Init(r), f);
      FreshKey(Init(r), r, |r| - 1);
      SnocParts(r);
    }
  }

  /** `filter(input, filterFn)`. */
  method Filter<V>(input: Record<V>, p: (Key, V) -> bool) returns (result: Record<V>)
    requires WellFormed(input)
    ensures result == Filtered(input, p)
  {
    result := [];
    for i := 0 to |input|
      invariant result == Filtered(input[..i], p)
    {
      var (key, value) := input[i];
      assert input[..i + 1] == input[..i] + [input[i]];
      if p(key, value) {
        FilteredMembers(input[..i], p);
        FreshKey(result, input, i);
        result := Assign(result, key, value);
      }
    }
    assert input[..|input|] == input;
  }

  /** `split(input, filterFn)`: entries that pass go to the first record, the rest to the second. */
  method Split<V>(input: Record<V>, p: (Key, V) -> bool) returns (pass: Record<V>, fail: Record<V>)
    requires WellFormed(input)
    ensures pass == Filtered(input, p)
    ensures fail == Filtered(input, Negate(p))
  {
    pass, fail := [], [];
    for i := 0 to |input|
      invariant pass == Filtered(input[..i], p)
      invariant fail == Filtered(input[..i], Negate(p))
    {
      var (key, value) := input[i];
      assert input[..i + 1] == input[..i] + [input[i]];
      if p(key, value) {
        FilteredMembers(input[..i], p);
        FreshKey(pass, input, i);
        pass := Assign(pass, key, value);
      } else {
        FilteredMembers(input[..i], Negate(p));
        FreshKey(fail, input, i);
        fail := Assign(fail, key, value);
      }
    }
    assert input[..|input|] == input;
  }

  /** `map(input, mapFn)`. */
  method Map<V, W>(input: Record<V>, f: (Key, V) -> (Key, W)) returns (result: Record<W>)
    ensures result == Mapped(input, f)
  {
    result := [];
    for i := 0 to |input|
      invariant result == Mapped(input[..i], f)
    {
      var (key, value) := input[i];
      assert input[..i + 1] == input[..i] + [input[i]];
      var (k, w) := f(key, value);
      result := Assign(result, k, w);
    }
    assert input[..|input|] == input;
  }

  /** `pick(input, ...keys)`: the entries whose key is listed. */
  method Pick<V>(input: Record<V>, keys: seq<Key>) returns (result: Record<V>)
    requires WellFormed(input)
    ensures result == Filtered(input, KeyIn(keys))
    ensures forall e | e in result :: e in input && e.0 in keys
    ensures forall e | e in input && e.0 in keys :: e in result
  {
    result := Filter(input, KeyIn(keys));
    FilteredMembers(input, KeyIn(keys));
  }

  /** `pick({a: 1, b: 2, c: 3}, "a", "b")` is `{a: 1, b: 2}`. */
  lemma PickExample()
    ensures Filtered([("a", 1), ("b", 2), ("c", 3)], KeyIn(["a", "b"])) == [("a", 1), ("b", 2)]
  {
  }

  /**
   * `omit(input, ...keys)` as written: it passes the same predicate to
   * `filter` as `pick`, so it too keeps the listed keys.
   */
  method Omit<V>(input: Record<V>, keys: seq<Key>) returns (result: Record<V>)
    requires WellFormed(input)
    ensures result == Filtered(input, KeyIn(keys))
    ensures forall e | e in result :: e in input && e.0 in keys
    ensures forall e | e in input && e.0 in keys :: e in result
  {
    result := Filter(input, KeyIn(keys));
    FilteredMembers(input, KeyIn(keys));
  }

  /**
   * What `omit` as written does to a listed key: the key is still in its
   * result, while the intended result does not have it.
   */
  lemma OmitKeepsListedKey<V>(input: Record<V>, keys: seq<Key>, k: Key, v: V)
    requires (k, v) in input && k in keys
    ensures k in Keys(Filtered(input, KeyIn(keys)))
    ensures k !in Keys(Filtered(input, Negate(KeyIn(keys))))
  {
    FilteredMembers(input, KeyIn(keys));
    var s := Filtered(input, KeyIn(keys));
    var j :| 0 <= j < |s| && s[j] == (k, v);
    assert Keys(s)[j] == k;
    FilteredMembers(input, Negate(KeyIn(keys)));
    var t := Filtered(input, Negate(KeyIn(keys)));
    forall i | 0 <= i < |t| ensures Keys(t)[i] != k {
      assert t[i] in t;
    }
  }

  /** On `{a: 1, b: 2}`, `omit(input, "a")` as written returns `{a: 1}`; the intended result is `{b: 2}`. */
  lemma OmitExample()
    ensures Filtered([("a", 1), ("b", 2)], KeyIn(["a"])) == [("a", 1)]
    ensures Filtered([("a", 1), ("b", 2)], Negate(KeyIn(["a"]))) == [("b", 2)]
  {
  }

  /** `omit` as evidently intended: the entries whose key is not listed. */
  method OmitIntended<V>(input: Record<V>, keys: seq<Key>) returns (result: Record<V>)
    requires WellFormed(input)
    ensures result == Filtered(input, Negate(KeyIn(keys)))
    ensures forall e | e in result :: e in input && e.0 !in keys
    ensures forall e | e in input && e.0 !in keys :: e in result
  {
    result := Filter(input, Negate(KeyIn(keys)));
    FilteredMembers(input, Negate(KeyIn(keys)));
  }
}
