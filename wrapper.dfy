/**
 * The `obby` wrapper: it holds one object and offers the toolkit as instance
 * methods, each applying the static operation to the held object and
 * returning a new wrapper around the result (or, for `getParts` and
 * `getPartsDescriptors`, the parts themselves).
 *
 * The held object is a plain record of JavaScript values, as object literals
 * and the combinators (which build their results by assignment) produce.
 */
module Wrapper {
  import opened Records
  import opened Descriptors
  import opened Parts
  import opened Combinators

  /**
   * The own property table of a plain record: each property an ordinary
   * data property (writable, enumerable, configurable) holding its value.
   */
  function PlainDescriptors<D, F>(r: Record<Value<D, F>>): Record<Descriptor<D, F>> {
    seq(|r|, i requires 0 <= i < |r| => (r[i].0, DataDescriptor(r[i].1, true, true, true)))
  }

  /** A JavaScript array `[a, b]` as `Object.keys` sees it: keys "0" and "1". */
  function Pair<D, F>(a: D, b: D): Record<Value<D, F>> {
    [("0", NonFunction(a)), ("1", NonFunction(b))]
  }

  class Obby<D, F> {
    const input: Record<Value<D, F>>

    /** The held object has unique keys, as every object does. */
    predicate Valid() {
      WellFormed(input)
    }

    constructor (input: Record<Value<D, F>>)
      requires WellFormed(input)
      ensures Valid() && this.input == input
    {
      this.input := input;
    }

    /** `valueOf()`: the held object itself. */
    function ValueOf(): (r: Record<Value<D, F>>)
      ensures r == input
    {
      input
    }

    /**
     * `getParts()`: the held plain record has data properties only, so its
     * non-function values are fields, its function values are methods, and
     * there are no getters or setters.
     */
    method GetParts() returns (parts: ObjectParts<D, F>)
      requires Valid()
      ensures parts == PartsOf(PlainDescriptors(input))
      ensures forall e | e in input && e.1.NonFunction? :: (e.0, e.1.datum) in parts.fields
      ensures forall e | e in input && e.1.Function? :: (e.0, e.1.fn) in parts.methods
      ensures parts.getters == [] && parts.setters == []
    {
      var own := PlainDescriptors(input);
      assert Keys(own) == Keys(input);
      parts := Parts.GetParts(own);
      forall e | e in input
        ensures e.1.NonFunction? ==> (e.0, e.1.datum) in parts.fields
        ensures e.1.Function? ==> (e.0, e.1.fn) in parts.methods
      {
        var i :| 0 <= i < |input| && input[i] == e;
        assert own[i] in own;
        PartsClassifyOwnKey(own, e.0, own[i].1);
      }
      NoAccessors(own);
    }

    /** `getPartsDescriptors()`. */
    method GetPartsDescriptors() returns (parts: ObjectPartsDescriptors<D, F>)
      requires Valid()
      ensures parts == PartsDescriptorsOf(PlainDescriptors(input))
    {
      var own := PlainDescriptors(input);
      assert Keys(own) == Keys(input);
      parts := Parts.GetPartsDescriptors(own);
    }

    /** `filter(filterFn)`. */
    method Filter(p: (Key, Value<D, F>) -> bool) returns (o: Obby<D, F>)
      requires Valid()
      ensures fresh(o) && o.Valid() && o.input == Filtered(input, p)
    {
      var r := Combinators.Filter(input, p);
      FilteredWellFormed(input, p);
      o := new Obby(r);
    }

    /**
     * `split(filterFn)`: the pair of records `split` returns, wrapped; a
     * pair is an array, whose keys are "0" and "1".
     */
    method Split(p: (Key, Value<D, F>) -> bool) returns (o: Obby<Record<Value<D, F>>, F>)
      requires Valid()
      ensures fresh(o) && o.Valid()
      ensures o.input == Pair(Filtered(input, p), Filtered(input, Negate(p)))
    {
      var pass, fail := Combinators.Split(input, p);
      o := new Obby(Pair(pass, fail));
    }

    /** `map(mapFn)`. */
    method Map(f: (Key, Value<D, F>) -> (Key, Value<D, F>)) returns (o: Obby<D, F>)
      ensures fresh(o) && o.Valid() && o.input == Mapped(input, f)
    {
      var r := Combinators.Map(input, f);
      o := new Obby(r);
    }

    /** `pick(...keys)`. */
    method Pick(keys: seq<Key>) returns (o: Obby<D, F>)
      requires Valid()
      ensures fresh(o) && o.Valid() && o.input == Filtered(input, KeyIn(keys))
    {
      var r := Combinators.Pick(input, keys);
      FilteredWellFormed(input, KeyIn(keys));
      o := new Obby(r);
    }

    /** `omit(...keys)` as written: the same `filter` call as `pick`. */
    method Omit(keys: seq<Key>) returns (o: Obby<D, F>)
      requires Valid()
      ensures fresh(o) && o.Valid() && o.input == Filtered(input, KeyIn(keys))
    {
      var r := Combinators.Filter(input, KeyIn(keys));
      FilteredWellFormed(input, KeyIn(keys));
      o := new Obby(r);
    }
  }

  /** A table of data descriptors yields no getters and no setters. */
  lemma {:induction false} NoAccessors<D, F>(own: Record<Descriptor<D, F>>)
    requires forall e | e in own :: e.1.DataDescriptor?
    ensures Collect(own, GetterSlot) == [] && Collect(own, SetterSlot) == []
  {
    if own != [] {
      assert Last(own) in own;
      NoAccessors(Init(own));
    }
  }
}
