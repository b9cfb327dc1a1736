/**
  Compress and CompressedPair (unique/compressed_pair.h).

  A Compress slot either stores a value of its type, or, for an empty and
  non-final type, stores nothing and presents its own stateless instance
  (the empty-base case). Only the values the slots present are modelled,
  not the object layout.
*/
module CompressedPairs {

  /** How a slot holds its value: in a member, or as an empty base whose one
      instance is `instance`. */
  datatype Layout<T> = Stored | Elided(instance: T)

  /** `Compress<T, index>` with either specialisation. */
  class Compress<T> {
    const layout: Layout<T>
    var value: T  // value_ (Stored layout only)

    /** `Compress()`: `zero` is `T{}`, the value-initialised T. */
    constructor Default(layout: Layout<T>, zero: T)
      ensures this.layout == layout
      ensures layout.Stored? ==> Get() == zero
    {
      this.layout := layout;
      value := if layout.Elided? then layout.instance else zero;
    }

    /** `Compress(T&)`, `Compress(const T&)`, `Compress(T&&)`: a stored slot keeps
        `v`; an elided slot discards it. */
    constructor Value(layout: Layout<T>, v: T)
      ensures this.layout == layout
      ensures Get() == if layout.Stored? then v else layout.instance
    {
      this.layout := layout;
      value := if layout.Elided? then layout.instance else v;
    }

    /** `Get()`: the stored value, or the slot's own instance when elided. */
    function Get(): (v: T)
      reads this
      ensures layout.Elided? ==> v == layout.instance
    {
      if layout.Elided? then layout.instance else value
    }

    /** Assignment through the reference `Get()` returns: a stored slot takes
        `v`; an elided slot's empty object has nothing to assign. */
    method Set(v: T)
      modifies this
      ensures Get() == if layout.Stored? then v else old(Get())
    {
      if layout.Stored? {
        value := v;
      }
    }

    /** `operator=(const Compress&)`: copy `other`'s value through a temporary
        and a swap, unless `other` is this very slot. */
    method Assign(other: Compress<T>)
      requires other.layout == layout
      modifies this
      ensures Get() == old(other.Get())
      ensures this == other ==> value == old(value)
    {
      if this != other {
        var temp := other.value;
        value, temp := temp, value;
      }
    }
  }

  /** `CompressedPair<F, S>`: one slot for each component. */
  class CompressedPair<F, S> {
    const first: Compress<F>
    const second: Compress<S>

    ghost function Repr(): set<object>
    {
      {this, first, second}
    }

    /** The two slots are distinct sub-objects. */
    ghost predicate Valid()
    {
      first as object != second as object
    }

    /** `CompressedPair()`: both slots value-initialised. */
    constructor Default(firstLayout: Layout<F>, secondLayout: Layout<S>, firstZero: F, secondZero: S)
      ensures fresh(first) && fresh(second) && Valid()
      ensures first.layout == firstLayout && second.layout == secondLayout
      ensures firstLayout.Stored? ==> GetFirst() == firstZero
      ensures secondLayout.Stored? ==> GetSecond() == secondZero
    {
      first := new Compress.Default(firstLayout, firstZero);
      second := new Compress.Default(secondLayout, secondZero);
    }

    /** `CompressedPair(first, second)`: each slot built from its argument. */
    constructor Make(firstLayout: Layout<F>, secondLayout: Layout<S>, a: F, b: S)
      ensures fresh(first) && fresh(second) && Valid()
      ensures first.layout == firstLayout && second.layout == secondLayout
      ensures GetFirst() == if firstLayout.Stored? then a else firstLayout.instance
      ensures GetSecond() == if secondLayout.Stored? then b else secondLayout.instance
    {
      first := new Compress.Value(firstLayout, a);
      second := new Compress.Value(secondLayout, b);
    }

    /** `GetFirst()`: the stored value, or the elided slot's own instance. */
    function GetFirst(): (f: F)
      reads first
      ensures first.layout.Stored? ==> f == first.value
      ensures first.layout.Elided? ==> f == first.layout.instance
    {
      first.Get()
    }

    /** `GetSecond()`: the stored value, or the elided slot's own instance. */
    function GetSecond(): (s: S)
      reads second
      ensures second.layout.Stored? ==> s == second.value
      ensures second.layout.Elided? ==> s == second.layout.instance
    {
      second.Get()
    }

    /** Writing through `GetFirst()` leaves the second component unchanged. */
    method SetFirst(v: F)
      requires Valid()
      modifies first
      ensures GetFirst() == if first.layout.Stored? then v else old(GetFirst())
      ensures GetSecond() == old(GetSecond())
    {
      first.Set(v);
    }

    /** Writing through `GetSecond()` leaves the first component unchanged. */
    method SetSecond(v: S)
      requires Valid()
      modifies second
      ensures GetSecond() == if second.layout.Stored? then v else old(GetSecond())
      ensures GetFirst() == old(GetFirst())
    {
      second.Set(v);
    }
  }
}
