/**
  Client code that drives the handles through whole lifetimes. Each method's
  contract is what the library promises a user for that sequence of calls,
  proved from the contracts of the handle operations alone.
*/
module Scenarios {
  import opened Addresses
  import opened ControlBlockSpec
  import opened SharedAndWeak
  import Intrusive
  import opened CompressedPairs
  import opened Unique

  /** An object deriving from EnableSharedFromThis, made by MakeShared:
      SharedFromThis yields a second owner presenting the same address; dropping
      both owners destroys the object and frees the block exactly once each,
      although destroying the object releases its own weak reference first. */
  method SelfReferencingLifetime(obj: Addr) returns (address: Addr, owners: nat, block: ControlBlock)
    ensures address == obj && owners == 2
    ensures block.destroys == 1 && block.frees == 1 && block.strong == 0 && block.weak == 0
  {
    var first := MakeShared(obj, true);
    block := first.block;
    var second := block.esft.SharedFromThis();
    address, owners := second.Get(), second.UseCount();
    first.Reset();
    second.Reset();
  }

  /** A null raw pointer still gets a block: the handle counts one owner yet
      tests false, and dropping it passes null to `delete`. */
  method NullRawPointer() returns (owners: nat, truth: bool, block: ControlBlock)
    ensures owners == 1 && !truth
    ensures block.deleted == [Null] && block.destroys == 1 && block.frees == 1
  {
    var sp := new SharedPtr.FromRaw(Null, null);
    owners, truth := sp.UseCount(), sp.AsBool();
    block := sp.block;
    sp.Reset();
  }

  /** `==` compares presented addresses only: an aliasing handle differs from
      its source although they share a block, and aliases of two unrelated
      blocks that present the same address compare equal. */
  method EqualityIgnoresBlocks(x: Addr, y: Addr, z: Addr) returns (sameBlockEqual: bool, otherBlockEqual: bool)
    requires x != y
    ensures !sameBlockEqual && otherBlockEqual
  {
    var a := new SharedPtr.FromRaw(x, null);
    var b := new SharedPtr.Alias(a, y);
    sameBlockEqual := Equal(a, b);
    var c := new SharedPtr.FromRaw(z, null);
    var d := new SharedPtr.Alias(c, y);
    otherBlockEqual := Equal(b, d);
  }

  /** Copy-assigning one of two owners of a self-referencing object to another
      block leaves the other owner consistent: the object is still alive, its
      self-reference is still wired, and the remaining owner counts one. */
  method CopyAssignKeepsOtherOwner(x: Addr, y: Addr) returns (owners: nat, block: ControlBlock)
    ensures owners == 1 && block.Valid() && block.SelfRef() && block.deleted == []
  {
    var a := MakeShared(x, true);
    block := a.block;
    var b := new SharedPtr.Copy(a);
    var c := new SharedPtr.FromRaw(y, null);
    a.CopyAssign(c);
    owners := b.UseCount();
  }

  /** The same with move assignment. */
  method MoveAssignKeepsOtherOwner(x: Addr, y: Addr) returns (owners: nat, block: ControlBlock)
    ensures owners == 1 && block.Valid() && block.SelfRef() && block.deleted == []
  {
    var a := MakeShared(x, true);
    block := a.block;
    var b := new SharedPtr.Copy(a);
    var c := new SharedPtr.FromRaw(y, null);
    a.MoveAssign(c);
    owners := b.UseCount();
  }

  /** A weak handle outlives the last owner: it reports the payload as gone,
      Lock yields an empty handle, promotion fails, and the block is freed
      only when the weak handle is dropped. */
  method WeakOutlivesOwner(x: Addr) returns (expired: bool, lockedEmpty: bool, promotionFailed: bool, block: ControlBlock)
    ensures expired && lockedEmpty && promotionFailed
    ensures block.destroys == 1 && block.frees == 1 && block.deleted == [x]
  {
    var sp := new SharedPtr.FromRaw(x, null);
    block := sp.block;
    var wp := new WeakPtr.FromShared(sp);
    sp.Reset();
    expired := wp.Expired();
    var locked := wp.Lock();
    lockedEmpty := !locked.AsBool() && locked.UseCount() == 0;
    var r := SharedPtr.Promote(wp);
    promotionFailed := r.BadWeakPtr?;
    wp.Reset();
  }

  /** Two intrusive handles on one object: the embedded count follows the
      handles, and the object is destroyed once, when the last one lets go. */
  method IntrusiveLifetime() returns (counts: seq<nat>, obj: Intrusive.RefCounted)
    ensures counts == [1, 2, 1, 0] && obj.destroys == 1
  {
    var a := Intrusive.MakeIntrusive();
    obj := a.ptr;
    counts := [a.UseCount()];
    var b := new Intrusive.IntrusivePtr.Copy(a);
    counts := counts + [b.UseCount()];
    a.Reset();
    counts := counts + [b.UseCount()];
    b.Reset();
    counts := counts + [obj.RefCount()];
  }

  /** Ownership moves from one UniquePtr to another; the address is deleted
      exactly once, by the handle that holds it last, and the moved-from handle
      runs no deleter when it is destroyed. */
  method UniqueLifetime(p: Addr) returns (calls: seq<Deletion>)
    requires p != Null
    ensures calls == [Deletion(DefaultDelete, p)]
  {
    var log := new DeletionLog();
    var u := new UniquePtr(p, false, Elided(DefaultDelete), DefaultDelete);
    var v := new UniquePtr.MoveFrom(u, DefaultDelete);
    u.AssignNull(log);
    v.AssignNull(log);
    calls := log.calls;
  }

  /** Move assignment deletes the destination's previous address with the
      deleter that comes in with the new one. */
  method MoveAssignUsesIncomingDeleter(p: Addr, q: Addr) returns (calls: seq<Deletion>, held: Addr)
    requires p != q
    ensures calls == [Deletion(Custom(2), p)] && held == q
  {
    var log := new DeletionLog();
    var u := new UniquePtr(p, false, Stored, Custom(1));
    var v := new UniquePtr(q, false, Stored, Custom(2));
    u.MoveAssign(v, log);
    held := u.Get();
    calls := log.calls;
  }

  /** Resetting an empty handle to a new address still runs the deleter, on null. */
  method ResetOfEmptyHandle(p: Addr) returns (calls: seq<Deletion>, held: Addr)
    requires p != Null
    ensures calls == [Deletion(DefaultDelete, Null)] && held == p
  {
    var log := new DeletionLog();
    var u := new UniquePtr(Null, false, Elided(DefaultDelete), DefaultDelete);
    u.Reset(p, log);
    held := u.Get();
    calls := log.calls;
  }
}
