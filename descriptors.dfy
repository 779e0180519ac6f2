/**
 * Property descriptors as `Object.getOwnPropertyDescriptors` reports them,
 * and the five classification predicates of `obby`.
 *
 * `D` stands for the non-function JavaScript values (including `undefined`)
 * and `F` for the function values; `typeof v === "function"` becomes the
 * constructor tag of `Value`.
 */
module Descriptors {
  import opened Records

  datatype Value<D, F> = Function(fn: F) | NonFunction(datum: D)

  /**
   * A data descriptor always has a `value` slot; an accessor descriptor has
   * `get` and `set` slots (`getter`, `setter`), each a function or `undefined` (`None`).
   */
  datatype Descriptor<D, F> =
    | DataDescriptor(value: Value<D, F>, writable: bool, enumerable: bool, configurable: bool)
    | AccessorDescriptor(getter: Option<F>, setter: Option<F>, enumerable: bool, configurable: bool)

  /** `isMethodProperty`: a `value` slot holding a function. */
  predicate IsMethodProperty<D, F>(d: Descriptor<D, F>) {
    d.DataDescriptor? && d.value.Function?
  }

  /** `isDataProperty`: a `value` slot holding anything but a function. */
  predicate IsDataProperty<D, F>(d: Descriptor<D, F>) {
    d.DataDescriptor? && d.value.NonFunction?
  }

  /** `isAccessorProperty`: a `get` slot or a `set` slot holding a function. */
  predicate IsAccessorProperty<D, F>(d: Descriptor<D, F>) {
    (d.AccessorDescriptor? && d.getter.Some?) || (d.AccessorDescriptor? && d.setter.Some?)
  }

  /** `isGetterProperty`: a `get` slot holding a function. */
  predicate IsGetterProperty<D, F>(d: Descriptor<D, F>) {
    d.AccessorDescriptor? && d.getter.Some?
  }

  /** `isSetterProperty`: a `set` slot holding a function. */
  predicate IsSetterProperty<D, F>(d: Descriptor<D, F>) {
    d.AccessorDescriptor? && d.setter.Some?
  }

  /** A data slot is a field or a method, never both; an accessor is neither. */
  lemma DataOrMethod<D, F>(d: Descriptor<D, F>)
    ensures !(IsDataProperty(d) && IsMethodProperty(d))
    ensures d.DataDescriptor? ==> (IsDataProperty(d) <==> !IsMethodProperty(d))
    ensures d.AccessorDescriptor? ==> !IsDataProperty(d) && !IsMethodProperty(d)
  {
  }

  /** The accessor test is exactly "getter or setter". */
  lemma AccessorIsGetterOrSetter<D, F>(d: Descriptor<D, F>)
    ensures IsAccessorProperty(d) <==> IsGetterProperty(d) || IsSetterProperty(d)
  {
  }

  /** The four dictionaries of `ObjectParts`. */
  datatype Bucket = Fields | Methods | Getters | Setters

  /**
   * The `if / else if` chain of `getParts`: data is tested first, then
   * method, then getter, then setter, and only the first test that holds
   * decides.  So an accessor with both a getter and a setter is a getter,
   * and an accessor with neither lands nowhere.
   */
  function BucketOf<D, F>(d: Descriptor<D, F>): (b: Option<Bucket>)
    ensures b == Some(Fields) <==> IsDataProperty(d)
    ensures b == Some(Methods) <==> IsMethodProperty(d)
    ensures b == Some(Getters) <==> IsGetterProperty(d)
    ensures b == Some(Setters) <==> IsSetterProperty(d) && !IsGetterProperty(d)
    ensures b == None <==> !IsDataProperty(d) && !IsMethodProperty(d) && !IsAccessorProperty(d)
  {
    if IsDataProperty(d) then Some(Fields)
    else if IsMethodProperty(d) then Some(Methods)
    else if IsGetterProperty(d) then Some(Getters)
    else if IsSetterProperty(d) then Some(Setters)
    else None
  }
}
