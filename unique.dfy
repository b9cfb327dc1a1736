/**
  UniquePtr for single objects and for arrays, and DefaultDeleter
  (unique/unique.h).

  A handle is a CompressedPair of the held address (always stored) and the
  deleter (elided when its type is empty). Every deleter invocation is
  recorded in a DeletionLog, so contracts can say exactly when, with which
  deleter and on which address the deleter runs.
*/
module Unique {
  import opened Addresses
  import opened CompressedPairs

  /** The deleter a handle carries: `DefaultDeleter<T>` (`delete`),
      `DefaultDeleter<T[]>` (`delete[]`), or a user deleter with state. */
  datatype Deleter =
    | DefaultDelete
    | DefaultDeleteArray
    | Custom(state: int)

  /** One invocation `deleter(ptr)`. */
  datatype Deletion = Deletion(deleter: Deleter, ptr: Addr)

  /** Every deleter invocation, in order. */
  class DeletionLog {
    var calls: seq<Deletion>

    constructor ()
      ensures calls == []
    {
      calls := [];
    }

    /** Invoke `deleter` on `ptr`. */
    method Invoke(deleter: Deleter, ptr: Addr)
      modifies this
      ensures calls == old(calls) + [Deletion(deleter, ptr)]
    {
      calls := calls + [Deletion(deleter, ptr)];
    }
  }

  /** `UniquePtr<T, Deleter>` (`isArray` false) and `UniquePtr<T[], Deleter>`
      (`isArray` true). */
  class UniquePtr {
    const isArray: bool
    const pair: CompressedPair<Addr, Deleter>  // ptr_

    ghost function Repr(): set<object>
    {
      {this, pair, pair.first, pair.second}
    }

    /** The address slot is stored (a pointer type is never empty) and the two
        slots are distinct. */
    ghost predicate Valid()
    {
      pair.Valid() && pair.first.layout.Stored?
    }

    /** `UniquePtr(ptr, deleter)`, and `explicit UniquePtr(ptr = nullptr)` with
        `deleter` the value-initialised `Deleter()`: adopts `p`; no deleter runs. */
    constructor (p: Addr, isArray: bool, deleterLayout: Layout<Deleter>, deleter: Deleter)
      ensures this.isArray == isArray && fresh(Repr() - {this}) && Valid()
      ensures pair.second.layout == deleterLayout
      ensures Get() == p
      ensures GetDeleter() == if deleterLayout.Stored? then deleter else deleterLayout.instance
    {
      this.isArray := isArray;
      pair := new CompressedPair.Make(Stored, deleterLayout, p, deleter);
    }

    /** The single-object move constructor. The pair starts value-initialised
        (a null address, `zero` as the deleter), then takes `other`'s deleter and
        released address. No deleter runs. */
    constructor MoveFrom(other: UniquePtr, zero: Deleter)
      requires other.Valid()
      modifies other.pair.first
      ensures !isArray && fresh(Repr() - {this}) && Valid()
      ensures pair.second.layout == other.pair.second.layout
      ensures Get() == old(other.Get()) && other.Get() == Null
      ensures GetDeleter() == if pair.second.layout.Stored? then old(other.GetDeleter()) else pair.second.layout.instance
      ensures other.GetDeleter() == old(other.GetDeleter())
    {
      isArray := false;
      pair := new CompressedPair.Default(Stored, other.pair.second.layout, Null, zero);
      new;
      pair.SetSecond(other.GetDeleter());
      var p := other.Release();
      pair.SetFirst(p);
    }

    /** The array form's move constructor. It starts like the single-object one
        but adopts `other`'s deleter and address only if its own (null) address
        differs from `other`'s, so from a null `other` it adopts nothing and
        `other` keeps its deleter. No deleter runs. */
    constructor MoveFromArray(other: UniquePtr, zero: Deleter)
      requires other.Valid()
      modifies other.pair.first
      ensures isArray && fresh(Repr() - {this}) && Valid()
      ensures pair.second.layout == other.pair.second.layout
      ensures old(other.Get()) != Null ==>
        Get() == old(other.Get()) && other.Get() == Null &&
        GetDeleter() == (if pair.second.layout.Stored? then old(other.GetDeleter()) else pair.second.layout.instance)
      ensures old(other.Get()) == Null ==>
        Get() == Null && other.Get() == Null &&
        GetDeleter() == (if pair.second.layout.Stored? then zero else pair.second.layout.instance)
      ensures other.GetDeleter() == old(other.GetDeleter())
    {
      isArray := true;
      pair := new CompressedPair.Default(Stored, other.pair.second.layout, Null, zero);
      new;
      if pair.GetFirst() != other.Get() {
        pair.SetSecond(other.GetDeleter());
        var p := other.Release();
        pair.SetFirst(p);
      }
    }

    /** `Get()`: the stored address; a pointer slot is never elided. */
    function Get(): (a: Addr)
      reads pair.first
      ensures Valid() ==> a == pair.first.value
    {
      pair.GetFirst()
    }

    /** `GetDeleter()`: the stored deleter, or the one instance of an empty
        deleter type whose slot is elided. */
    function GetDeleter(): (d: Deleter)
      reads pair.second
      ensures pair.second.layout.Stored? ==> d == pair.second.value
      ensures pair.second.layout.Elided? ==> d == pair.second.layout.instance
    {
      pair.GetSecond()
    }

    /** `explicit operator bool`: a non-null address is held. */
    predicate AsBool()
      reads pair.first
      ensures AsBool() <==> Get() != Null
      ensures Valid() ==> (AsBool() <==> pair.first.value != Null)
    {
      Get() != Null
    }

    /** `Release()`: give up ownership without running the deleter. */
    method Release() returns (p: Addr)
      requires Valid()
      modifies pair.first
      ensures p == old(Get()) && Get() == Null && !AsBool()
      ensures GetDeleter() == old(GetDeleter())
    {
      p := Get();
      pair.SetFirst(Null);
    }

    /** `Reset(ptr)`: when the held address differs from `p`, the current deleter
        runs, exactly once, on the released old address (even a null one); then
        `p` is held. When they are equal nothing happens. */
    method Reset(p: Addr, log: DeletionLog)
      requires Valid()
      modifies pair.first, log
      ensures Get() == p && GetDeleter() == old(GetDeleter())
      ensures AsBool() <==> p != Null
      ensures old(Get()) != p ==> log.calls == old(log.calls) + [Deletion(GetDeleter(), old(Get()))]
      ensures old(Get()) == p ==> log.calls == old(log.calls)
    {
      if Get() != p {
        var released := Release();
        log.Invoke(GetDeleter(), released);
      }
      if p != Null {
        pair.SetFirst(p);
      }
    }

    /** `operator=(nullptr)`, which is also what the destructor does: `Reset()`.
        A held address is deleted once; an empty handle runs no deleter. */
    method AssignNull(log: DeletionLog)
      requires Valid()
      modifies pair.first, log
      ensures Get() == Null && !AsBool() && GetDeleter() == old(GetDeleter())
      ensures old(AsBool()) ==> log.calls == old(log.calls) + [Deletion(GetDeleter(), old(Get()))]
      ensures !old(AsBool()) ==> log.calls == old(log.calls)
    {
      Reset(Null, log);
    }

    /** Move assignment: first take `other`'s deleter, then `Reset(other.Release())`.
        The previous address, when it differs from the incoming one, is deleted
        with the incoming deleter. Moving a handle into itself keeps its address
        but runs the deleter on null. */
    method MoveAssign(other: UniquePtr, log: DeletionLog)
      requires Valid() && other.Valid()
      requires this == other || Repr() !! other.Repr()
      requires pair.second.layout == other.pair.second.layout
      modifies pair.first, pair.second, other.pair.first, log
      ensures GetDeleter() == old(other.GetDeleter())
      ensures Get() == old(other.Get())
      ensures this != other ==> other.Get() == Null && other.GetDeleter() == old(other.GetDeleter())
      ensures this != other && old(Get()) != old(other.Get()) ==>
        log.calls == old(log.calls) + [Deletion(old(other.GetDeleter()), old(Get()))]
      ensures this != other && old(Get()) == old(other.Get()) ==> log.calls == old(log.calls)
      ensures this == other && old(Get()) != Null ==>
        log.calls == old(log.calls) + [Deletion(old(GetDeleter()), Null)]
      ensures this == other && old(Get()) == Null ==> log.calls == old(log.calls)
    {
      pair.SetSecond(other.GetDeleter());
      var p := other.Release();
      Reset(p, log);
    }

    /** `Swap(other)`: exchange both the addresses and the deleters. */
    method Swap(other: UniquePtr)
      requires Valid() && other.Valid()
      requires this == other || Repr() !! other.Repr()
      requires pair.second.layout == other.pair.second.layout
      modifies pair.first, pair.second, other.pair.first, other.pair.second
      ensures Get() == old(other.Get()) && other.Get() == old(Get())
      ensures GetDeleter() == old(other.GetDeleter()) && other.GetDeleter() == old(GetDeleter())
    {
      var p := Get();
      pair.SetFirst(other.Get());
      other.pair.SetFirst(p);
      var d := GetDeleter();
      pair.SetSecond(other.GetDeleter());
      other.pair.SetSecond(d);
    }
  }
}
