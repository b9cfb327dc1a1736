/**
  Control blocks, SharedPtr, WeakPtr and EnableSharedFromThis
  (shared_and_weak/sw_fwd.h, shared.h, weak.h).

  The four classes refer to one another (a block's payload may hold a WeakPtr
  back to the block), so they share one module. Every change a handle makes to
  a block's counters goes through the block's own Increment/Decrement methods,
  and each of those is proved to perform exactly one transition of
  ControlBlockSpec; the lemmas of that module then say what any sequence of
  such transitions guarantees.
*/
module SharedAndWeak {
  import opened Addresses
  import opened ControlBlockSpec

  /** Where a block's payload lives: `ControlBlockPtr<T>` owns an object that was
      allocated on its own; `ControlBlockObj<T>` holds the object in its own storage. */
  datatype Payload =
    | Separate(addr: Addr)
    | InBlock(addr: Addr)

  /** The outcome of promoting a WeakPtr with the throwing constructor. */
  datatype Promotion =
    | Promoted(sp: SharedPtr)
    | BadWeakPtr

  // ---------------------------------------------------------------------------
  // ControlBlock (sw_fwd.h)

  class ControlBlock {
    /** Which subclass the block is, and the payload's address. */
    const payload: Payload
    /** The payload's EnableSharedFromThis part, when its type has one. */
    const esft: EnableSharedFromThis?

    var strong: nat  // shared_count_
    var weak: nat    // weak_count_

    /** How many times Deleter() has run. */
    ghost var destroys: nat
    /** How many times the block has run `delete this`. */
    ghost var frees: nat
    /** The arguments the block has passed to `delete` for its payload. */
    ghost var deleted: seq<Addr>

    /** The block and the payload's own weak handle, the only objects that
        Deleter() writes to. */
    ghost function Footprint(): set<object>
    {
      {this} + (if esft != null then {esft.weakThis} else {})
    }

    /** The payload's `weak_this_` currently refers to this block. */
    ghost predicate SelfRef()
      reads Footprint()
    {
      esft != null && esft.weakThis.block == this
    }

    ghost function State(): BlockState
      reads Footprint()
    {
      BlockState(strong, weak, SelfRef(), destroys, frees)
    }

    /** The payload's self-reference is either empty or wired to this block,
        presenting the payload's own address. */
    ghost predicate Wired()
      reads Footprint()
    {
      esft != null ==>
        && esft.addr == payload.addr
        && (esft.weakThis.block == null || esft.weakThis.block == this)
        && (esft.weakThis.block == this ==> esft.weakThis.ptr == esft.addr)
    }

    ghost predicate Valid()
      reads Footprint()
    {
      Wired() && Inv(State())
    }

    /** What one strong drop passes to `delete`: the external pointer, on the
        drop that destroys the payload. An inline payload is only destructed. */
    ghost function DeletedOnDrop(strongBefore: nat): seq<Addr>
    {
      if strongBefore == 1 && payload.Separate? then [payload.addr] else []
    }

    /** `ControlBlockPtr(T* ptr)`. */
    constructor External(ptr: Addr, esft: EnableSharedFromThis?)
      requires esft != null ==> esft.addr == ptr && esft.weakThis.block == null
      ensures payload == Separate(ptr) && this.esft == esft && Get() == ptr
      ensures State() == Created() && deleted == [] && Valid()
    {
      payload := Separate(ptr);
      this.esft := esft;
      strong, weak := 1, 0;
      destroys, frees, deleted := 0, 0, [];
    }

    /** `ControlBlockObj(Args&&...)`: the object is built inside the block, at
        `obj`; `selfReferencing` says whether its type derives from
        EnableSharedFromThis, whose `weak_this_` then starts out empty. */
    constructor Inline(obj: Addr, selfReferencing: bool)
      ensures payload == InBlock(obj) && Get() == obj
      ensures selfReferencing <==> esft != null
      ensures esft != null ==> fresh(esft) && fresh(esft.weakThis) && esft.addr == obj
      ensures esft != null ==> esft.weakThis.block == null && esft.weakThis.ptr == Null
      ensures State() == Created() && deleted == [] && Valid()
    {
      payload := InBlock(obj);
      if selfReferencing {
        esft := new EnableSharedFromThis(obj);
      } else {
        esft := null;
      }
      strong, weak := 1, 0;
      destroys, frees, deleted := 0, 0, [];
    }

    /** `GetSharedCount()`: under the invariant, positive exactly while the
        payload has not been destroyed. */
    function GetSharedCount(): (n: nat)
      reads Footprint()
      ensures n == State().strong
      ensures Valid() ==> (n == 0 <==> destroys == 1)
    {
      strong
    }

    /** `GetWeakCount()`: a wired self-reference is one of the weak references;
        once the payload is gone, the count is 0 exactly when the block is freed. */
    function GetWeakCount(): (n: nat)
      reads Footprint()
      ensures n == State().weak
      ensures Valid() && SelfRef() ==> n >= 1
      ensures Valid() && strong == 0 ==> (n == 0 <==> frees == 1)
    {
      weak
    }

    /** `Get()` of either subclass: the payload's address. It is the address of
        the payload's EnableSharedFromThis part, and for an external payload the
        one `delete` receives on the last strong drop. */
    function Get(): (a: Addr)
      reads Footprint()
      ensures Wired() && esft != null ==> a == esft.addr
      ensures DeletedOnDrop(1) == if payload.Separate? then [a] else []
      ensures DeletedOnDrop(2) == []
    {
      payload.addr
    }

    method IncrementSharedCount()
      modifies this
      ensures State() == IncShared(old(State())) && deleted == old(deleted)
      ensures Wired() == old(Wired())
    {
      strong := strong + 1;
    }

    method IncrementWeakCount()
      modifies this
      ensures State() == IncWeak(old(State())) && deleted == old(deleted)
      ensures Wired() == old(Wired())
    {
      weak := weak + 1;
    }

    /** `Deleter()`: `delete ptr_` for an external payload, `~T()` in place for an
        inline one. Destroying an EnableSharedFromThis payload destroys its
        `weak_this_`, which releases its weak reference to the block. */
    method Deleter()
      requires Wired() && (SelfRef() ==> weak >= 1)
      modifies Footprint()
      ensures Wired() && State() == DestroyPayload(old(State()))
      ensures deleted == old(deleted) + (if payload.Separate? then [payload.addr] else [])
      ensures esft != null ==> esft.weakThis.ptr == old(esft.weakThis.ptr)
      ensures esft != null && old(esft.weakThis.block) != this ==> esft.weakThis.block == old(esft.weakThis.block)
    {
      destroys := destroys + 1;
      if payload.Separate? {
        deleted := deleted + [payload.addr];
      }
      if esft != null {
        esft.weakThis.Reset();
      }
    }

    /** `DecrementSharedCount()`: Deleter() first when this is the last strong
        reference, then the decrement, then `delete this` if both counts are zero. */
    method DecrementSharedCount()
      requires Wired() && strong >= 1 && (strong == 1 && SelfRef() ==> weak >= 1)
      modifies Footprint()
      ensures Wired() && State() == DecShared(old(State()))
      ensures deleted == old(deleted) + DeletedOnDrop(old(strong))
      ensures esft != null ==> esft.weakThis.ptr == old(esft.weakThis.ptr)
      ensures esft != null && old(esft.weakThis.block) != this ==> esft.weakThis.block == old(esft.weakThis.block)
    {
      if strong == 1 {
        Deleter();
      }
      strong := strong - 1;
      if strong == 0 && weak == 0 {
        frees := frees + 1;
      }
    }

    /** `DecrementWeakCount()`: the decrement, then `delete this` if both counts are zero. */
    method DecrementWeakCount()
      requires weak >= 1
      modifies this
      ensures State() == DecWeak(old(State())) && deleted == old(deleted)
      ensures Wired() == old(Wired())
    {
      weak := weak - 1;
      if weak == 0 && strong == 0 {
        frees := frees + 1;
      }
    }
  }

  // ---------------------------------------------------------------------------
  // EnableSharedFromThis (shared.h)

  class EnableSharedFromThis {
    /** The address of the object this base belongs to. */
    const addr: Addr
    /** The member `weak_this_`. */
    const weakThis: WeakPtr

    constructor (addr: Addr)
      ensures this.addr == addr && fresh(weakThis)
      ensures weakThis.block == null && weakThis.ptr == Null
    {
      this.addr := addr;
      weakThis := new WeakPtr.Empty();
    }

    /** `SharedFromThis()`: `weak_this_.Lock()`. Once the object is owned, this is
        a new owner of the same block presenting the object's own address. */
    method SharedFromThis() returns (sp: SharedPtr)
      requires weakThis.Counted()
      modifies weakThis.block
      ensures fresh(sp) && sp.Valid()
      ensures old(weakThis.block) != null && old(weakThis.block.strong) != 0 ==>
        sp.block == weakThis.block && sp.ptr == weakThis.ptr &&
        sp.block.State() == IncShared(old(weakThis.block.State()))
      ensures old(weakThis.block) != null && weakThis.block.esft == this && old(weakThis.block.strong) != 0 ==>
        sp.ptr == addr
      ensures old(weakThis.block) == null || old(weakThis.block.strong) == 0 ==>
        sp.block == null && sp.ptr == Null &&
        (weakThis.block != null ==> weakThis.block.State() == old(weakThis.block.State()))
      ensures old(weakThis.block) != null ==> weakThis.block.deleted == old(weakThis.block.deleted)
    {
      sp := weakThis.Lock();
    }

    /** `WeakFromThis()`: a copy of `weak_this_`. */
    method WeakFromThis() returns (wp: WeakPtr)
      requires weakThis.Counted()
      modifies weakThis.block
      ensures fresh(wp) && wp.Valid()
      ensures wp.block == weakThis.block && wp.ptr == weakThis.ptr
      ensures wp.block != null ==> wp.block.State() == IncWeak(old(weakThis.block.State()))
      ensures old(weakThis.block) != null ==> weakThis.block.deleted == old(weakThis.block.deleted)
    {
      wp := new WeakPtr.Copy(weakThis);
    }
  }

  // ---------------------------------------------------------------------------
  // SharedPtr (shared.h)

  class SharedPtr {
    var block: ControlBlock?  // control_block_
    var ptr: Addr             // ptr_, the presented address

    ghost function BlockFootprint(): set<object>
      reads this
    {
      if block != null then block.Footprint() else {}
    }

    /** A live handle: its block is consistent and counts it as a strong reference. */
    ghost predicate Valid()
      reads this, BlockFootprint()
    {
      block != null ==> block.Valid() && block.strong >= 1
    }

    /** `SharedPtr()` and `SharedPtr(nullptr)`. */
    constructor Empty()
      ensures block == null && ptr == Null && Valid()
    {
      block, ptr := null, Null;
    }

    /** `SharedPtr(Y* ptr)`: a new external block owns `p`, even when `p` is null.
        When `Y` derives from EnableSharedFromThis (`esft` is its base), the
        object's `weak_this_` is wired to the new block. */
    constructor FromRaw(p: Addr, esft: EnableSharedFromThis?)
      requires esft != null ==> esft.addr == p && p != Null && esft.weakThis.block == null
      modifies if esft != null then {esft.weakThis} else {}
      ensures fresh(block) && block.payload == Separate(p) && block.esft == esft
      ensures ptr == p && Valid() && block.deleted == []
      ensures block.State() == if esft != null then WireSelf(Created()) else Created()
      ensures esft != null ==> esft.weakThis.block == block && esft.weakThis.ptr == p
    {
      block := new ControlBlock.External(p, esft);
      ptr := p;
      new;
      if esft != null {
        InitWeakThis(esft);
      }
    }

    /** `SharedPtr(ControlBlockObj<T>*)`: takes over the block's initial strong
        reference and presents its inline object; wires `weak_this_` when the
        object's type derives from EnableSharedFromThis. */
    constructor FromInline(cb: ControlBlock)
      requires cb.payload.InBlock? && cb.Valid() && cb.strong >= 1
      requires cb.esft != null ==> cb.esft.weakThis.block == null
      modifies cb, if cb.esft != null then {cb.esft.weakThis} else {}
      ensures block == cb && ptr == cb.Get() && Valid()
      ensures cb.State() == if cb.esft != null then WireSelf(old(cb.State())) else old(cb.State())
      ensures cb.deleted == old(cb.deleted)
      ensures cb.esft != null ==> cb.esft.weakThis.block == cb && cb.esft.weakThis.ptr == cb.Get()
    {
      block := cb;
      ptr := cb.Get();
      new;
      if cb.esft != null {
        InitWeakThis(cb.esft);
      }
    }

    /** The copy constructors: the same block and address, one more owner. */
    constructor Copy(other: SharedPtr)
      requires other.Valid()
      modifies other.block
      ensures block == other.block && ptr == other.ptr && Valid()
      ensures block != null ==> block.State() == IncShared(old(other.block.State()))
      ensures block != null ==> block.deleted == old(other.block.deleted)
    {
      block, ptr := other.block, other.ptr;
      new;
      IncreaseCount();
    }

    /** The aliasing constructor: the block of `other`, one more owner, but the
        address `p`. */
    constructor Alias(other: SharedPtr, p: Addr)
      requires other.Valid()
      modifies other.block
      ensures block == other.block && ptr == p && Valid()
      ensures block != null ==> block.State() == IncShared(old(other.block.State()))
      ensures block != null ==> block.deleted == old(other.block.deleted)
    {
      block, ptr := other.block, p;
      new;
      IncreaseCount();
    }

    /** The move constructors: the block and address are taken over, `other` is
        left empty, and no count changes. */
    constructor Move(other: SharedPtr)
      requires other.Valid()
      modifies other
      ensures block == old(other.block) && ptr == old(other.ptr) && Valid()
      ensures other.block == null && other.ptr == Null
    {
      block, ptr := other.block, other.ptr;
      new;
      other.block, other.ptr := null, Null;
    }

    /** `explicit SharedPtr(const WeakPtr<T>&)`: throws BadWeakPtr when the weak
        handle is expired; otherwise one more owner of its block and address. */
    static method Promote(w: WeakPtr) returns (r: Promotion)
      requires w.Counted()
      modifies w.block
      ensures r.BadWeakPtr? <==> old(w.Expired())
      ensures w.block != null ==> w.block.deleted == old(w.block.deleted)
      ensures r.BadWeakPtr? ==> w.block == null || w.block.State() == old(w.block.State())
      ensures r.Promoted? ==>
        fresh(r.sp) && r.sp.Valid() && r.sp.block == w.block && r.sp.ptr == w.ptr &&
        r.sp.block.State() == IncShared(old(w.block.State()))
    {
      if w.Expired() {
        return BadWeakPtr;
      }
      var sp := new SharedPtr.Empty();
      sp.block, sp.ptr := w.block, w.ptr;
      sp.IncreaseCount();
      r := Promoted(sp);
    }

    /** `InitWeakThis(e)`: `e->weak_this_ = WeakPtr<Y>(*this)`. A weak handle is
        made from this owner and moved into the (empty) `weak_this_`; the
        emptied temporary releases nothing. */
    method InitWeakThis(e: EnableSharedFromThis)
      requires block != null && block.esft == e && e.weakThis.block == null
      requires block.Valid() && block.strong >= 1 && e.addr == ptr
      modifies e.weakThis, block
      ensures e.weakThis.block == block && e.weakThis.ptr == ptr
      ensures block.State() == WireSelf(old(block.State())) && block.Valid()
      ensures block.deleted == old(block.deleted)
    {
      var tmp := new WeakPtr.FromShared(this);
      // Move-assignment into an empty `weak_this_`: nothing to release.
      e.weakThis.block, e.weakThis.ptr := tmp.block, tmp.ptr;
      tmp.block, tmp.ptr := null, Null;
    }

    /** `IncreaseCount()`. */
    method IncreaseCount()
      requires Valid()
      modifies block
      ensures Valid()
      ensures block != null ==> block.State() == IncShared(old(block.State()))
      ensures block != null ==> block.deleted == old(block.deleted)
    {
      if block != null {
        ghost var s := block.State();
        block.IncrementSharedCount();
        StepPreservesInv(s, ShareCopy);
      }
    }

    /** `DecreaseCount()`: this handle gives up its strong reference. */
    method DecreaseCount()
      requires Valid()
      modifies BlockFootprint()
      ensures block != null ==> block.Valid() && block.State() == DecShared(old(block.State()))
      ensures block != null ==> block.deleted == old(block.deleted) + block.DeletedOnDrop(old(block.strong))
      ensures block != null && block.esft != null ==> block.esft.weakThis.ptr == old(block.esft.weakThis.ptr)
    {
      if block != null {
        ghost var s := block.State();
        block.DecrementSharedCount();
        StepPreservesInv(s, ShareDrop);
      }
    }

    /** Copy assignment: release the old block, then share `other`'s. There is
        no identity check, so assigning a handle to itself is only safe while
        another owner keeps the count at 2 or more. */
    method CopyAssign(other: SharedPtr)
      requires Valid() && other.Valid()
      requires block != null && block == other.block ==> block.strong >= 2
      modifies this, BlockFootprint(), other.block
      ensures block == old(other.block) && ptr == old(other.ptr) && Valid()
      ensures old(block) != null && old(block) != old(other.block) ==>
        old(block).Valid() && old(block).State() == DecShared(old(block.State())) &&
        old(block).deleted == old(block.deleted) + old(block).DeletedOnDrop(old(block.strong))
      ensures block != null && block != old(block) ==>
        block.State() == IncShared(old(other.block.State())) && block.deleted == old(other.block.deleted)
      ensures block != null && block == old(block) ==>
        block.State() == old(block.State()) && block.deleted == old(block.deleted)
    {
      DecreaseCount();
      block, ptr := other.block, other.ptr;
      IncreaseCount();
    }

    /** Move assignment: release the old block, take over `other`'s block and
        address, and empty `other`. Moving a handle into itself leaves it empty. */
    method MoveAssign(other: SharedPtr)
      requires Valid() && other.Valid()
      requires this != other && block != null && block == other.block ==> block.strong >= 2
      modifies this, other, BlockFootprint()
      ensures this != other ==> block == old(other.block) && ptr == old(other.ptr)
      ensures other.block == null && other.ptr == Null && Valid()
      ensures old(block) != null ==>
        old(block).Valid() && old(block).State() == DecShared(old(block.State())) &&
        old(block).deleted == old(block.deleted) + old(block).DeletedOnDrop(old(block.strong))
      ensures old(other.block) != null && old(other.block) != old(block) ==>
        old(other.block).State() == old(other.block.State()) &&
        old(other.block).deleted == old(other.block.deleted)
    {
      DecreaseCount();
      block, ptr := other.block, other.ptr;
      other.block, other.ptr := null, Null;
    }

    /** `Reset()`: release the block; both fields become null. */
    method Reset()
      requires Valid()
      modifies this, BlockFootprint()
      ensures block == null && ptr == Null && Valid() && UseCount() == 0
      ensures old(block) != null ==>
        old(block).Valid() && old(block).State() == DecShared(old(block.State())) &&
        old(block).deleted == old(block.deleted) + old(block).DeletedOnDrop(old(block.strong))
    {
      DecreaseCount();
      block, ptr := null, Null;
    }

    /** `Reset(Y* ptr)`: release the block, then own `p` through a brand-new
        external block. Unlike the raw-pointer constructor it does not wire an
        EnableSharedFromThis payload's `weak_this_`. */
    method ResetTo(p: Addr, esft: EnableSharedFromThis?)
      requires Valid()
      requires esft != null ==> esft.addr == p && esft.weakThis.block == null
      modifies this, BlockFootprint()
      ensures fresh(block) && block.payload == Separate(p) && block.esft == esft && ptr == p
      ensures block.State() == Created() && block.deleted == [] && Valid() && UseCount() == 1
      ensures old(block) != null ==>
        old(block).Valid() && old(block).State() == DecShared(old(block.State())) &&
        old(block).deleted == old(block.deleted) + old(block).DeletedOnDrop(old(block.strong))
    {
      DecreaseCount();
      block := new ControlBlock.External(p, esft);
      ptr := p;
    }

    /** `Swap(other)`: exchange blocks and addresses; no count changes. */
    method Swap(other: SharedPtr)
      requires Valid() && other.Valid()
      modifies this, other
      ensures block == old(other.block) && ptr == old(other.ptr)
      ensures other.block == old(block) && other.ptr == old(ptr)
      ensures Valid() && other.Valid()
    {
      block, other.block := other.block, block;
      ptr, other.ptr := other.ptr, ptr;
    }

    /** `Get()`: the presented address, which is what `operator bool` tests. */
    function Get(): (a: Addr)
      reads this
      ensures AsBool() <==> a != Null
    {
      ptr
    }

    /** `UseCount()`: the block's strong count, 0 without a block; a live
        handle with a block always reports at least 1. */
    function UseCount(): (n: nat)
      reads this, BlockFootprint()
      ensures block == null ==> n == 0
      ensures block != null ==> n == block.State().strong
      ensures Valid() && block != null ==> n >= 1
    {
      if block != null then block.GetSharedCount() else 0
    }

    /** `explicit operator bool`: tests the presented address only, not the
        block, so a handle that owns a null pointer tests false while its use
        count is positive. */
    predicate AsBool()
      reads this, BlockFootprint()
      ensures AsBool() <==> ptr != Null
      ensures Valid() && block != null && ptr == Null ==> !AsBool() && UseCount() >= 1
    {
      ptr != Null
    }
  }

  /** `operator==`: compares presented addresses, not blocks. Two handles on
      different blocks presenting one address are equal; two aliases on one
      block presenting different addresses are not. */
  function Equal(left: SharedPtr, right: SharedPtr): (r: bool)
    reads left, right
    ensures left == right ==> r
    ensures left.ptr == right.ptr && left.block != right.block ==> r
    ensures left.block == right.block && left.ptr != right.ptr ==> !r
  {
    left.Get() == right.Get()
  }

  /** `MakeShared<T>(args...)`: one inline block at `obj`, wrapped by one owner. */
  method MakeShared(obj: Addr, selfReferencing: bool) returns (sp: SharedPtr)
    ensures fresh(sp) && fresh(sp.block) && sp.Valid()
    ensures sp.block.payload == InBlock(obj) && sp.ptr == obj && sp.UseCount() == 1
    ensures sp.block.deleted == []
    ensures selfReferencing <==> sp.block.esft != null
    ensures sp.block.State() == if selfReferencing then WireSelf(Created()) else Created()
    ensures sp.block.esft != null ==>
      fresh(sp.block.esft) && sp.block.esft.weakThis.block == sp.block && sp.block.esft.weakThis.ptr == obj
  {
    var cb := new ControlBlock.Inline(obj, selfReferencing);
    sp := new SharedPtr.FromInline(cb);
  }

  // ---------------------------------------------------------------------------
  // WeakPtr (weak.h)

  class WeakPtr {
    var block: ControlBlock?  // control_block_
    var ptr: Addr             // ptr_

    ghost function BlockFootprint(): set<object>
      reads this
    {
      if block != null then block.Footprint() else {}
    }

    /** This handle is the `weak_this_` of its block's payload. */
    ghost predicate IsSelfRef()
      reads this
    {
      block != null && block.esft != null && block.esft.weakThis == this
    }

    /** This handle is not the `weak_this_` of `b`'s payload, so pointing it at
        `b` does not wire anything. */
    ghost predicate NotSelfOf(b: ControlBlock?)
    {
      b == null || b.esft == null || b.esft.weakThis != this
    }

    /** The block is consistent and counts this handle as one of its weak
        references: the payload's own, or one held elsewhere. */
    ghost predicate Counted()
      reads this, BlockFootprint()
    {
      block != null ==> block.Valid() && (IsSelfRef() || ExternalWeak(block.State()) >= 1)
    }

    /** A live weak handle held by a user (not a payload's `weak_this_`). */
    ghost predicate Valid()
      reads this, BlockFootprint()
    {
      Counted() && NotSelfOf(block)
    }

    /** `WeakPtr()`: no block, so the use count is 0 and the handle is expired. */
    constructor Empty()
      ensures block == null && ptr == Null && Valid()
      ensures UseCount() == 0 && Expired()
    {
      block, ptr := null, Null;
    }

    /** The copy constructors: one more weak reference to the same block. */
    constructor Copy(other: WeakPtr)
      requires other.Counted()
      modifies other.block
      ensures block == other.block && ptr == other.ptr && Valid()
      ensures block != null ==> block.State() == IncWeak(old(other.block.State()))
      ensures block != null ==> block.deleted == old(other.block.deleted)
    {
      block, ptr := other.block, other.ptr;
      new;
      IncreaseCount();
    }

    /** The move constructors: the block and address are taken over, `other` is
        left empty, and the block's weak count does not change. */
    constructor Move(other: WeakPtr)
      requires other.Valid()
      modifies other
      ensures block == old(other.block) && ptr == old(other.ptr) && Valid()
      ensures other.block == null && other.ptr == Null
    {
      block, ptr := other.block, other.ptr;
      new;
      other.block, other.ptr := null, Null;
    }

    /** `WeakPtr(const SharedPtr<T>&)`: one more weak reference; the strong count
        is unchanged. */
    constructor FromShared(other: SharedPtr)
      requires other.Valid()
      modifies other.block
      ensures block == other.block && ptr == other.ptr && Valid()
      ensures block != null ==> block.State() == IncWeak(old(other.block.State()))
      ensures block != null ==> block.deleted == old(other.block.deleted)
    {
      block, ptr := other.block, other.ptr;
      new;
      IncreaseCount();
    }

    /** `IncreaseCount()`. */
    method IncreaseCount()
      requires NotSelfOf(block)
      requires block != null ==> block.Valid() && (block.strong >= 1 || ExternalWeak(block.State()) >= 1)
      modifies block
      ensures Valid()
      ensures block != null ==> block.State() == IncWeak(old(block.State()))
      ensures block != null ==> block.deleted == old(block.deleted)
    {
      if block != null {
        ghost var s := block.State();
        block.IncrementWeakCount();
        StepPreservesInv(s, WeakCopy);
      }
    }

    /** `DecreaseCount()`. */
    method DecreaseCount()
      requires Valid()
      modifies block
      ensures block != null ==> block.Valid() && block.State() == DecWeak(old(block.State()))
      ensures block != null ==> block.deleted == old(block.deleted)
    {
      if block != null {
        ghost var s := block.State();
        block.DecrementWeakCount();
        StepPreservesInv(s, WeakDrop);
      }
    }

    /** Copy assignment: release the old block, then add a weak reference to
        `other`'s. Assigning within one block is only safe while the release
        cannot free the block. */
    method CopyAssign(other: WeakPtr)
      requires Valid() && other.Valid() && NotSelfOf(other.block)
      requires block != null && block == other.block ==>
        block.strong >= 1 || ExternalWeak(block.State()) >= 2
      modifies this, block, other.block
      ensures block == old(other.block) && ptr == old(other.ptr) && Valid()
      ensures old(block) != null && old(block) != old(other.block) ==>
        old(block).State() == DecWeak(old(block.State())) && old(block).deleted == old(block.deleted)
      ensures block != null && block != old(block) ==>
        block.State() == IncWeak(old(other.block.State())) && block.deleted == old(other.block.deleted)
      ensures block != null && block == old(block) ==>
        block.State() == old(block.State()) && block.deleted == old(block.deleted)
    {
      DecreaseCount();
      block, ptr := other.block, other.ptr;
      IncreaseCount();
    }

    /** Move assignment: release the old block, take over `other`'s block and
        address, and empty `other`. */
    method MoveAssign(other: WeakPtr)
      requires Valid() && other.Valid() && NotSelfOf(other.block)
      requires this != other && block != null && block == other.block ==>
        ExternalWeak(block.State()) >= 2
      modifies this, other, block
      ensures this != other ==> block == old(other.block) && ptr == old(other.ptr)
      ensures other.block == null && other.ptr == Null && Valid()
      ensures old(block) != null ==>
        old(block).State() == DecWeak(old(block.State())) && old(block).deleted == old(block.deleted)
      ensures old(other.block) != null && old(other.block) != old(block) ==>
        old(other.block).State() == old(other.block.State())
    {
      DecreaseCount();
      block, ptr := other.block, other.ptr;
      other.block, other.ptr := null, Null;
    }

    /** `Reset()`: release the weak reference and forget the block (the address
        field is left as it was). Also what the payload's `weak_this_` does when
        the payload is destroyed, inside Deleter(). */
    method Reset()
      requires block != null ==> block.Wired() && block.weak >= 1
      modifies this, block
      ensures block == null && ptr == old(ptr) && UseCount() == 0
      ensures old(block) != null ==> old(block).Wired() && old(block).deleted == old(block.deleted)
      ensures old(block) != null ==>
        old(block).State() ==
          (if old(IsSelfRef()) then DropSelfRef(old(block.State())) else DecWeak(old(block.State())))
      ensures old(block) != null && old(Valid()) ==> old(block).Valid()
    {
      if block != null {
        ghost var s := block.State();
        block.DecrementWeakCount();
        if Inv(s) && ExternalWeak(s) >= 1 && !IsSelfRef() {
          StepPreservesInv(s, WeakDrop);
        }
      }
      block := null;
    }

    /** `Swap(other)`: exchange blocks and addresses; no count changes. */
    method Swap(other: WeakPtr)
      requires Valid() && other.Valid() && NotSelfOf(other.block) && other.NotSelfOf(block)
      modifies this, other
      ensures block == old(other.block) && ptr == old(other.ptr)
      ensures other.block == old(block) && other.ptr == old(ptr)
      ensures Valid() && other.Valid()
    {
      block, other.block := other.block, block;
      ptr, other.ptr := other.ptr, ptr;
    }

    /** `UseCount()`: the block's strong count, 0 without a block. For a
        consistent block it is positive exactly while the payload is alive, and
        the payload's own `weak_this_` always sees at least its owner. */
    function UseCount(): (n: nat)
      reads this, BlockFootprint()
      ensures block == null ==> n == 0
      ensures block != null ==> n == block.State().strong
      ensures block != null && Inv(block.State()) ==> (n >= 1 <==> block.destroys == 0)
      ensures IsSelfRef() && Inv(block.State()) ==> n >= 1
    {
      if block != null then block.GetSharedCount() else 0
    }

    /** `Expired()`: no strong reference is left; for a handle with a consistent
        block, exactly when the payload has been destroyed. */
    predicate Expired()
      reads this, BlockFootprint()
      ensures block != null && Inv(block.State()) ==> (Expired() <==> block.destroys == 1)
    {
      UseCount() == 0
    }

    /** `Lock()`: a new owner of the block when the payload is alive, an empty
        handle otherwise; never fails. */
    method Lock() returns (sp: SharedPtr)
      requires Counted()
      modifies block
      ensures fresh(sp) && sp.Valid()
      ensures block != null ==> block.deleted == old(block.deleted)
      ensures old(block) != null && old(block.strong) != 0 ==>
        sp.block == block && sp.ptr == ptr && block.State() == IncShared(old(block.State()))
      ensures old(block) == null || old(block.strong) == 0 ==>
        sp.block == null && sp.ptr == Null && (block != null ==> block.State() == old(block.State()))
    {
      if block != null && UseCount() != 0 {
        var r := SharedPtr.Promote(this);
        sp := r.sp;
      } else {
        sp := new SharedPtr.Empty();
      }
    }
  }
}
