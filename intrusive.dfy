/**
  IntrusivePtr, RefCounted and SimpleCounter (intrusive/intrusive.h).

  The reference count lives inside the pointee. A pointee is a RefCounted
  object with its own SimpleCounter; it is destroyed, once, when a DecRef
  brings the count to 0.
*/
module Intrusive {

  /** `SimpleCounter`: a counter updated in place, each update returning the new value. */
  class SimpleCounter {
    var count: nat  // count_

    /** Value-initialisation, as `RefCounted()` does with `counter_()`. */
    constructor ()
      ensures count == 0
    {
      count := 0;
    }

    method IncRef() returns (n: nat)
      modifies this
      ensures RefCount() == old(RefCount()) + 1 && n == RefCount()
    {
      count := count + 1;
      n := count;
    }

    method DecRef() returns (n: nat)
      requires count >= 1
      modifies this
      ensures RefCount() == old(RefCount()) - 1 && n == RefCount()
    {
      count := count - 1;
      n := count;
    }

    /** `RefCount()`: the value the last `IncRef` or `DecRef` returned, or 0
        before any. */
    function RefCount(): (n: nat)
      reads this
      ensures n == count
    {
      count
    }
  }

  /** A pointee deriving from `RefCounted<Derived, SimpleCounter, DefaultDelete>`. */
  class RefCounted {
    const counter: SimpleCounter  // counter_
    /** How many times `Deleter().Destroy(this)` has run. */
    ghost var destroys: nat

    /** The object has not been destroyed, or it was destroyed by the DecRef that
        took its count to 0, and only once. */
    ghost predicate Valid()
      reads this, counter
    {
      destroys <= 1 && (destroys == 1 ==> counter.count == 0)
    }

    ghost predicate Alive()
      reads this
    {
      destroys == 0
    }

    /** `RefCounted()`: a fresh object, with no reference counted yet. */
    constructor ()
      ensures fresh(counter) && counter.count == 0 && Alive() && Valid()
    {
      counter := new SimpleCounter();
      destroys := 0;
    }

    /** `IncRef()`: only meaningful on a live object. */
    method IncRef()
      requires Valid() && Alive()
      modifies counter
      ensures counter.count == old(counter.count) + 1 && Valid() && Alive()
    {
      var _ := counter.IncRef();
    }

    /** `DecRef()`: the object is destroyed exactly when the decrement yields 0. */
    method DecRef()
      requires Valid() && counter.count >= 1
      modifies this, counter
      ensures counter.count == old(counter.count) - 1 && Valid()
      ensures destroys == old(destroys) + (if counter.count == 0 then 1 else 0)
    {
      var n := counter.DecRef();
      if n == 0 {
        destroys := destroys + 1;
      }
    }

    /** `RefCount()`: the embedded counter's value; an object whose count is
        positive has not been destroyed. */
    function RefCount(): (n: nat)
      reads this, counter
      ensures n == counter.count
      ensures Valid() && n >= 1 ==> Alive()
    {
      counter.RefCount()
    }
  }

  /** Two pointees that are different objects embed different counters. */
  ghost predicate DistinctCounters(a: RefCounted?, b: RefCounted?)
  {
    a == null || b == null || a == b || a.counter != b.counter
  }

  /** `IntrusivePtr<T>`: a single pointer; the count is the pointee's. */
  class IntrusivePtr {
    var ptr: RefCounted?  // ptr_

    ghost function Counter(): set<object>
      reads this
    {
      if ptr != null then {ptr.counter} else {}
    }

    /** A live handle: its pointee is alive and counts it. */
    ghost predicate Valid()
      reads this, ptr, Counter()
    {
      ptr != null ==> ptr.Valid() && ptr.counter.count >= 1
    }

    /** `IntrusivePtr()` and `IntrusivePtr(nullptr)`. */
    constructor Empty()
      ensures ptr == null && Valid() && UseCount() == 0
    {
      ptr := null;
    }

    /** `IntrusivePtr(T*)`: adopts `p` and counts one more reference to it; a null
        pointer touches nothing. */
    constructor FromRaw(p: RefCounted?)
      requires p != null ==> p.Valid() && p.Alive()
      modifies if p != null then {p.counter} else {}
      ensures ptr == p && Valid()
      ensures p != null ==> p.counter.count == old(p.counter.count) + 1 && p.Alive()
    {
      ptr := p;
      new;
      if ptr != null {
        ptr.IncRef();
      }
    }

    /** The copy constructors. */
    constructor Copy(other: IntrusivePtr)
      requires other.Valid()
      modifies other.Counter()
      ensures ptr == other.ptr && Valid()
      ensures ptr != null ==> ptr.counter.count == old(other.ptr.counter.count) + 1
    {
      ptr := other.ptr;
      new;
      if ptr != null {
        ptr.IncRef();
      }
    }

    /** The move constructors: the pointer is taken over, no count changes. */
    constructor Move(other: IntrusivePtr)
      requires other.Valid()
      modifies other
      ensures ptr == old(other.ptr) && other.ptr == null && Valid()
    {
      ptr := other.ptr;
      new;
      other.ptr := null;
    }

    /** Copy assignment: nothing happens when both hold the same pointer;
        otherwise the old pointee loses a reference and the new one gains one. */
    method CopyAssign(other: IntrusivePtr)
      requires Valid() && other.Valid() && DistinctCounters(ptr, other.ptr)
      modifies this, ptr, Counter(), other.Counter()
      ensures ptr == old(other.ptr) && Valid()
      ensures old(ptr) == old(other.ptr) ==> old(ptr) == null || old(ptr.counter.count) == ptr.counter.count
      ensures old(ptr) != old(other.ptr) && old(ptr) != null ==>
        old(ptr).counter.count == old(ptr.counter.count) - 1 &&
        old(ptr).destroys == old(ptr.destroys) + (if old(ptr).counter.count == 0 then 1 else 0)
      ensures old(ptr) != old(other.ptr) && ptr != null ==>
        ptr.counter.count == old(other.ptr.counter.count) + 1 && ptr.destroys == old(other.ptr.destroys)
    {
      if ptr != other.ptr {
        if ptr != null {
          ptr.DecRef();
        }
        ptr := other.ptr;
        if ptr != null {
          ptr.IncRef();
        }
      }
    }

    /** Move assignment: nothing happens when both hold the same pointer (and
        `other` keeps it); otherwise the old pointee loses a reference, the
        pointer is taken over and `other` is emptied. */
    method MoveAssign(other: IntrusivePtr)
      requires Valid() && other.Valid() && DistinctCounters(ptr, other.ptr)
      modifies this, other, ptr, Counter()
      ensures old(ptr) == old(other.ptr) ==> ptr == old(ptr) && other.ptr == old(other.ptr)
      ensures old(ptr) != old(other.ptr) ==> ptr == old(other.ptr) && other.ptr == null
      ensures Valid() && other.Valid()
      ensures old(ptr) != old(other.ptr) && old(ptr) != null ==>
        old(ptr).counter.count == old(ptr.counter.count) - 1 &&
        old(ptr).destroys == old(ptr.destroys) + (if old(ptr).counter.count == 0 then 1 else 0)
      ensures ptr != null ==>
        ptr.counter.count == old(other.ptr.counter.count) && ptr.destroys == old(other.ptr.destroys)
    {
      if ptr != other.ptr {
        if ptr != null {
          ptr.DecRef();
        }
        ptr := other.ptr;
        other.ptr := null;
      }
    }

    /** `Reset()` (and the destructor): the pointee loses a reference, the handle
        becomes null. */
    method Reset()
      requires Valid()
      modifies this, ptr, Counter()
      ensures ptr == null && UseCount() == 0
      ensures old(ptr) != null ==>
        old(ptr).Valid() && old(ptr).counter.count == old(ptr.counter.count) - 1 &&
        old(ptr).destroys == old(ptr.destroys) + (if old(ptr).counter.count == 0 then 1 else 0)
    {
      if ptr != null {
        ptr.DecRef();
      }
      ptr := null;
    }

    /** `Reset(T*)`: decrement the old pointee, then adopt `p` and increment it.
        There is no identity check, so resetting to the held pointer is only safe
        while another reference keeps its count at 2 or more. */
    method ResetTo(p: RefCounted?)
      requires Valid() && DistinctCounters(ptr, p)
      requires p != null && p != ptr ==> p.Valid() && p.Alive()
      requires p != null && p == ptr ==> p.counter.count >= 2
      modifies this, ptr, Counter(), if p != null then {p.counter} else {}
      ensures ptr == p && Valid()
      ensures old(ptr) != null && old(ptr) != p ==>
        old(ptr).counter.count == old(ptr.counter.count) - 1 &&
        old(ptr).destroys == old(ptr.destroys) + (if old(ptr).counter.count == 0 then 1 else 0)
      ensures p != null && p != old(ptr) ==> p.counter.count == old(p.counter.count) + 1
      ensures p != null && p == old(ptr) ==> p.counter.count == old(p.counter.count) && p.destroys == old(p.destroys)
    {
      if ptr != null {
        ptr.DecRef();
      }
      ptr := p;
      if ptr != null {
        ptr.IncRef();
      }
    }

    /** `Swap(other)`: exchange the pointers; no count changes. */
    method Swap(other: IntrusivePtr)
      requires Valid() && other.Valid()
      modifies this, other
      ensures ptr == old(other.ptr) && other.ptr == old(ptr)
      ensures Valid() && other.Valid()
    {
      ptr, other.ptr := other.ptr, ptr;
    }

    /** `Get()`: a live handle never presents a destroyed pointee. */
    function Get(): (p: RefCounted?)
      reads this, ptr, Counter()
      ensures p == ptr
      ensures Valid() && p != null ==> p.Alive() && p.RefCount() >= 1
    {
      ptr
    }

    /** `UseCount()`: 0 for a null handle, the pointee's count otherwise; a live
        non-null handle reports at least 1. */
    function UseCount(): (n: nat)
      reads this, ptr, Counter()
      ensures ptr == null ==> n == 0
      ensures ptr != null ==> n == ptr.counter.count
      ensures Valid() && ptr != null ==> n >= 1
    {
      if ptr != null then ptr.counter.RefCount() else 0
    }

    /** `explicit operator bool`: for a live handle, true exactly when it
        counts towards a pointee's references. */
    predicate AsBool()
      reads this, ptr, Counter()
      ensures AsBool() <==> ptr != null
      ensures Valid() ==> (AsBool() <==> UseCount() >= 1)
    {
      ptr != null
    }
  }

  /** `MakeIntrusive<T>(args...)`: a new pointee adopted by one handle. */
  method MakeIntrusive() returns (h: IntrusivePtr)
    ensures fresh(h) && fresh(h.ptr) && fresh(h.ptr.counter) && h.Valid() && h.UseCount() == 1 && h.ptr.Alive()
  {
    var obj := new RefCounted();
    h := new IntrusivePtr.FromRaw(obj);
  }
}
