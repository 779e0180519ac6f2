/**
 * `getParts` and `getPartsDescriptors`: sort an object's own properties into
 * fields, methods, getters and setters.
 *
 * The object is given by its own property table (what
 * `Object.entries(Object.getOwnPropertyDescriptors(input))` yields), a record
 * from keys to descriptors.
 */
module Parts {
  import opened Records
  import opened Descriptors

  datatype ObjectParts<D, F> =
    ObjectParts(fields: Record<D>, methods: Record<F>, getters: Record<F>, setters: Record<F>)

  datatype ObjectPartsDescriptors<D, F> = ObjectPartsDescriptors(
    fields: Record<Descriptor<D, F>>,
    methods: Record<Descriptor<D, F>>,
    getters: Record<Descriptor<D, F>>,
    setters: Record<Descriptor<D, F>>)

  /** Option chaining: apply `g` to the value, if there is one. */
  function Then<V, W>(o: Option<V>, g: V -> Option<W>): Option<W> {
    match o
    case None => None
    case Some(v) => g(v)
  }

  /**
   * The entries of `r` for which `g` yields something, in order, each with
   * what `g` yields.
   */
  function Collect<V, W>(r: Record<V>, g: V -> Option<W>): Record<W> {
    if r == [] then []
    else
      Collect(Init(r), g) + match g(Last(r).1) {
        case None => []
        case Some(w) => [(Last(r).0, w)]
      }
  }

  /** Reading `k` from a collected record reads `k` from the source and applies `g`. */
  lemma {:induction false} CollectLookup<V, W>(r: Record<V>, g: V -> Option<W>, k: Key)
    requires WellFormed(r)
    ensures Lookup(Collect(r, g), k) == Then(Lookup(r, k), g)
  {
    if r != [] {
      var c := Collect(Init(r), g);
      CollectLookup(Init(r), g, k);
      CollectWellFormed(Init(r), g);
      match g(Last(r).1)
      case None =>
        assert Collect(r, g) == c;
        if Last(r).0 == k {
          FreshKey(Init(r), r, |r| - 1);
          assert Lookup(Init(r), k) == None;
        }
      case Some(w) =>
        SnocParts(c + [(Last(r).0, w)]);
        assert Init(c + [(Last(r).0, w)]) == c;
    }
  }

  /** Collecting from a well-formed record gives a well-formed record. */
  lemma {:induction false} CollectWellFormed<V, W>(r: Record<V>, g: V -> Option<W>)
    requires WellFormed(r)
    ensures WellFormed(Collect(r, g))
  {
    if r != [] {
      var c := Collect(Init(r), g);
      CollectWellFormed(Init(r), g);
      match g(Last(r).1)
      case None =>
      case Some(w) =>
        CollectLookup(Init(r), g, Last(r).0);
        FreshKey(Init(r), r, |r| - 1);
        AppendFresh(c, (Last(r).0, w));
    }
  }

  /** Two collections that keep the same entries have the same keys in the same order. */
  lemma {:induction false} CollectSameKeys<V, W, X>(r: Record<V>, g: V -> Option<W>, h: V -> Option<X>)
    requires forall v :: g(v).Some? <==> h(v).Some?
    ensures Keys(Collect(r, g)) == Keys(Collect(r, h))
  {
    if r != [] {
      CollectSameKeys(Init(r), g, h);
      match g(Last(r).1)
      case None =>
        assert Collect(r, g) == Collect(Init(r), g);
        assert Collect(r, h) == Collect(Init(r), h);
      case Some(w) =>
        KeysSnoc(Collect(Init(r), g), (Last(r).0, w));
        KeysSnoc(Collect(Init(r), h), (Last(r).0, h(Last(r).1).value));
    }
  }

  /** What a descriptor contributes to `fields`: its non-function value. */
  function FieldSlot<D, F>(d: Descriptor<D, F>): Option<D> {
    if BucketOf(d) == Some(Fields) then Some(d.value.datum) else None
  }

  /** What a descriptor contributes to `methods`: its function value. */
  function MethodSlot<D, F>(d: Descriptor<D, F>): Option<F> {
    if BucketOf(d) == Some(Methods) then Some(d.value.fn) else None
  }

  /** What a descriptor contributes to `getters`: its `get` function. */
  function GetterSlot<D, F>(d: Descriptor<D, F>): Option<F> {
    if BucketOf(d) == Some(Getters) then Some(d.getter.value) else None
  }

  /** What a descriptor contributes to `setters`: its `set` function. */
  function SetterSlot<D, F>(d: Descriptor<D, F>): Option<F> {
    if BucketOf(d) == Some(Setters) then Some(d.setter.value) else None
  }

  /** What a descriptor contributes to bucket `b` of `getPartsDescriptors`: itself. */
  function DescriptorSlot<D, F>(b: Bucket): Descriptor<D, F> -> Option<Descriptor<D, F>> {
    d => if BucketOf(d) == Some(b) then Some(d) else None
  }

  /** The result of `getParts` on an object with own property table `own`. */
  ghost function PartsOf<D, F>(own: Record<Descriptor<D, F>>): ObjectParts<D, F> {
    ObjectParts(Collect(own, FieldSlot), Collect(own, MethodSlot),
                Collect(own, GetterSlot), Collect(own, SetterSlot))
  }

  /** The result of `getPartsDescriptors` on an object with own property table `own`. */
  ghost function PartsDescriptorsOf<D, F>(own: Record<Descriptor<D, F>>): ObjectPartsDescriptors<D, F> {
    ObjectPartsDescriptors(Collect(own, DescriptorSlot(Fields)), Collect(own, DescriptorSlot(Methods)),
                           Collect(own, DescriptorSlot(Getters)), Collect(own, DescriptorSlot(Setters)))
  }

  /**
   * `getParts`: one pass over the own properties, writing each key into the
   * dictionary chosen by the first classification test that holds.
   */
  method GetParts<D, F>(own: Record<Descriptor<D, F>>) returns (parts: ObjectParts<D, F>)
    requires WellFormed(own)
    ensures parts == PartsOf(own)
  {
    var fields: Record<D>, methods: Record<F>, getters: Record<F>, setters: Record<F> := [], [], [], [];
    for i := 0 to |own|
      invariant fields == Collect(own[..i], FieldSlot)
      invariant methods == Collect(own[..i], MethodSlot)
      invariant getters == Collect(own[..i], GetterSlot)
      invariant setters == Collect(own[..i], SetterSlot)
    {
      var (key, d) := own[i];
      assert own[..i + 1] == own[..i] + [own[i]];
      assert WellFormed(own[..i]);
      CollectKeysFresh(own, i, FieldSlot);
      CollectKeysFresh(own, i, MethodSlot);
      CollectKeysFresh(own, i, GetterSlot);
      CollectKeysFresh(own, i, SetterSlot);
      if IsDataProperty(d) {
        fields := Assign(fields, key, d.value.datum);
      } else if IsMethodProperty(d) {
        methods := Assign(methods, key, d.value.fn);
      } else if IsGetterProperty(d) {
        getters := Assign(getters, key, d.getter.value);
      } else if IsSetterProperty(d) {
        setters := Assign(setters, key, d.setter.value);
      }
    }
    assert own[..|own|] == own;
    parts := ObjectParts(fields, methods, getters, setters);
  }

  /**
   * `getPartsDescriptors`: the same pass, storing the raw descriptor instead
   * of the value, getter or setter it holds.
   */
  method GetPartsDescriptors<D, F>(own: Record<Descriptor<D, F>>) returns (parts: ObjectPartsDescriptors<D, F>)
    requires WellFormed(own)
    ensures parts == PartsDescriptorsOf(own)
  {
    var fields: Record<Descriptor<D, F>>, methods: Record<Descriptor<D, F>> := [], [];
    var getters: Record<Descriptor<D, F>>, setters: Record<Descriptor<D, F>> := [], [];
    for i := 0 to |own|
      invariant fields == Collect(own[..i], DescriptorSlot(Fields))
      invariant methods == Collect(own[..i], DescriptorSlot(Methods))
      invariant getters == Collect(own[..i], DescriptorSlot(Getters))
      invariant setters == Collect(own[..i], DescriptorSlot(Setters))
    {
      var (key, d) := own[i];
      assert own[..i + 1] == own[..i] + [own[i]];
      assert WellFormed(own[..i]);
      CollectKeysFresh(own, i, DescriptorSlot(Fields));
      CollectKeysFresh(own, i, DescriptorSlot(Methods));
      CollectKeysFresh(own, i, DescriptorSlot(Getters));
      CollectKeysFresh(own, i, DescriptorSlot(Setters));
      if IsDataProperty(d) {
        fields := Assign(fields, key, d);
      } else if IsMethodProperty(d) {
        methods := Assign(methods, key, d);
      } else if IsGetterProperty(d) {
        getters := Assign(getters, key, d);
      } else if IsSetterProperty(d) {
        setters := Assign(setters, key, d);
      }
    }
    assert own[..|own|] == own;
    parts := ObjectPartsDescriptors(fields, methods, getters, setters);
  }

  /** The key of entry `i` is not yet in anything collected from the entries before it. */
  lemma CollectKeysFresh<V, W>(own: Record<V>, i: int, g: V -> Option<W>)
    requires WellFormed(own) && 0 <= i < |own|
    ensures own[i].0 !in Keys(Collect(own[..i], g))
  {
    assert WellFormed(own[..i]);
    CollectLookup(own[..i], g, own[i].0);
    FreshKey(own[..i], own, i);
  }

  /** An entry of a collected record comes from an entry of the source under the same key. */
  lemma CollectMember<V, W>(r: Record<V>, g: V -> Option<W>, e: (Key, W))
    requires WellFormed(r) && e in Collect(r, g)
    ensures Lookup(r, e.0).Some? && g(Lookup(r, e.0).value) == Some(e.1)
  {
  }

  /**
   * An own property `(k, d)` is in `fields` exactly when `d` is a data
   * property, in `methods` exactly when it is a method, in `getters` exactly
   * when it has a getter, and in `setters` exactly when it has a setter but
   * no getter; and it is stored with the value, getter or setter `d` holds.
   */
  lemma PartsClassifyOwnKey<D, F>(own: Record<Descriptor<D, F>>, k: Key, d: Descriptor<D, F>)
    requires WellFormed(own) && (k, d) in own
    ensures k in Keys(PartsOf(own).fields) <==> IsDataProperty(d)
    ensures k in Keys(PartsOf(own).methods) <==> IsMethodProperty(d)
    ensures k in Keys(PartsOf(own).getters) <==> IsGetterProperty(d)
    ensures k in Keys(PartsOf(own).setters) <==> IsSetterProperty(d) && !IsGetterProperty(d)
    ensures IsDataProperty(d) ==> (k, d.value.datum) in PartsOf(own).fields
    ensures IsMethodProperty(d) ==> (k, d.value.fn) in PartsOf(own).methods
    ensures IsGetterProperty(d) ==> (k, d.getter.value) in PartsOf(own).getters
    ensures IsSetterProperty(d) && !IsGetterProperty(d) ==> (k, d.setter.value) in PartsOf(own).setters
  {
    LookupMember(own, k, d);
    CollectLookup(own, FieldSlot, k);
    CollectLookup(own, MethodSlot, k);
    CollectLookup(own, GetterSlot, k);
    CollectLookup(own, SetterSlot, k);
  }

  /** Every key of every bucket is an own key of the input. */
  lemma PartsOnlyOwnKeys<D, F>(own: Record<Descriptor<D, F>>, k: Key)
    requires WellFormed(own)
    ensures k in Keys(PartsOf(own).fields) ==> k in Keys(own)
    ensures k in Keys(PartsOf(own).methods) ==> k in Keys(own)
    ensures k in Keys(PartsOf(own).getters) ==> k in Keys(own)
    ensures k in Keys(PartsOf(own).setters) ==> k in Keys(own)
  {
    CollectLookup(own, FieldSlot, k);
    CollectLookup(own, MethodSlot, k);
    CollectLookup(own, GetterSlot, k);
    CollectLookup(own, SetterSlot, k);
  }

  /** No key is in two buckets. */
  lemma PartsAtMostOneBucket<D, F>(own: Record<Descriptor<D, F>>, k: Key)
    requires WellFormed(own)
    ensures k in Keys(PartsOf(own).fields) ==>
      k !in Keys(PartsOf(own).methods) && k !in Keys(PartsOf(own).getters) && k !in Keys(PartsOf(own).setters)
    ensures k in Keys(PartsOf(own).methods) ==>
      k !in Keys(PartsOf(own).getters) && k !in Keys(PartsOf(own).setters)
    ensures k in Keys(PartsOf(own).getters) ==> k !in Keys(PartsOf(own).setters)
  {
    PartsOnlyOwnKeys(own, k);
    if k in Keys(own) {
      var d := Lookup(own, k).value;
      PartsClassifyOwnKey(own, k, d);
    }
  }

  /** An accessor with both a getter and a setter is recorded as a getter only. */
  lemma PartsGetterAndSetter<D, F>(own: Record<Descriptor<D, F>>, k: Key, getFn: F, setFn: F, enumerable: bool, configurable: bool)
    requires WellFormed(own)
    requires (k, AccessorDescriptor(Some(getFn), Some(setFn), enumerable, configurable)) in own
    ensures (k, getFn) in PartsOf(own).getters
    ensures k !in Keys(PartsOf(own).setters)
    ensures k !in Keys(PartsOf(own).fields) && k !in Keys(PartsOf(own).methods)
  {
    PartsClassifyOwnKey(own, k, AccessorDescriptor(Some(getFn), Some(setFn), enumerable, configurable));
  }

  /** An accessor with neither a getter nor a setter is recorded nowhere. */
  lemma PartsEmptyAccessor<D, F>(own: Record<Descriptor<D, F>>, k: Key, enumerable: bool, configurable: bool)
    requires WellFormed(own)
    requires (k, AccessorDescriptor(None, None, enumerable, configurable)) in own
    ensures k !in Keys(PartsOf(own).fields) && k !in Keys(PartsOf(own).methods)
    ensures k !in Keys(PartsOf(own).getters) && k !in Keys(PartsOf(own).setters)
  {
    PartsClassifyOwnKey(own, k, AccessorDescriptor(None, None, enumerable, configurable));
  }

  /**
   * `getPartsDescriptors` files the same keys, in the same order, into the
   * same buckets as `getParts`, and stores the own descriptor itself.
   */
  lemma PartsDescriptorsMatchParts<D, F>(own: Record<Descriptor<D, F>>)
    requires WellFormed(own)
    ensures Keys(PartsDescriptorsOf(own).fields) == Keys(PartsOf(own).fields)
    ensures Keys(PartsDescriptorsOf(own).methods) == Keys(PartsOf(own).methods)
    ensures Keys(PartsDescriptorsOf(own).getters) == Keys(PartsOf(own).getters)
    ensures Keys(PartsDescriptorsOf(own).setters) == Keys(PartsOf(own).setters)
    ensures forall e | e in PartsDescriptorsOf(own).fields :: e in own && IsDataProperty(e.1)
    ensures forall e | e in PartsDescriptorsOf(own).methods :: e in own && IsMethodProperty(e.1)
    ensures forall e | e in PartsDescriptorsOf(own).getters :: e in own && IsGetterProperty(e.1)
    ensures forall e | e in PartsDescriptorsOf(own).setters :: e in own && IsSetterProperty(e.1) && !IsGetterProperty(e.1)
  {
    CollectSameKeys(own, DescriptorSlot(Fields), FieldSlot);
    CollectSameKeys(own, DescriptorSlot(Methods), MethodSlot);
    CollectSameKeys(own, DescriptorSlot(Getters), GetterSlot);
    CollectSameKeys(own, DescriptorSlot(Setters), SetterSlot);
    forall b: Bucket, e | e in Collect(own, DescriptorSlot(b))
      ensures e in own && BucketOf(e.1) == Some(b)
    {
      CollectMember(own, DescriptorSlot(b), e);
    }
  }
}
