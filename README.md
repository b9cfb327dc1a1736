# smart-ptrs-cpp, modelled in Dafny

This project models three smart-pointer families and the reference-counting
and ownership rules behind them:

- **SharedPtr / WeakPtr / EnableSharedFromThis** over a control block. The
  block holds a strong count (`shared_count_`) and a weak count
  (`weak_count_`). It destroys the payload on the strong 1→0 step and frees
  itself once both counts are zero.
- **IntrusivePtr**, whose count lives inside the pointee (`RefCounted` with a
  `SimpleCounter`).
- **UniquePtr**, single-object and array forms. It is exclusive ownership over
  a `CompressedPair` of the address and a deleter.

Payload objects are abstract addresses (`Addresses.Addr`, a `nat`; 0 is
`nullptr`). Memory is not modelled. Ghost counters and logs record what the
source does to it:
- `destroys`: how many times a block's `Deleter()` ran;
- `frees`: how many times a block ran `delete this`;
- `deleted`: the arguments a block passed to `delete`;
- `RefCounted.destroys`: how many times an intrusive pointee was destroyed;
- `DeletionLog`: every `UniquePtr` deleter call.

Files:

- `control_block_spec.dfy` (module `ControlBlockSpec`): one control block as a
  value-level state machine (`BlockState`). It has one transition per counter
  operation, a lifetime invariant `Inv`, and lemmas over whole traces of
  handle operations.
- `shared_and_weak.dfy` (module `SharedAndWeak`): the classes `ControlBlock`,
  `EnableSharedFromThis`, `SharedPtr` and `WeakPtr`.
  - Every counter method of `ControlBlock` is proved to perform exactly the
    matching `ControlBlockSpec` transition (`State() == DecShared(old(State()))`).
    Every handle operation is proved in those terms.
  - A payload that derives from EnableSharedFromThis is a block with an `esft`
    object. Its `weakThis` is a real `WeakPtr`. `Deleter()` destroys it by
    calling `weakThis.Reset()`, the same re-entrant `DecrementWeakCount` that
    the source performs while the strong count is still 1.
- `intrusive.dfy` (module `Intrusive`): `SimpleCounter`, `RefCounted`,
  `IntrusivePtr`, `MakeIntrusive`.
- `compressed_pair.dfy` (module `CompressedPairs`): `Compress` and
  `CompressedPair`. A slot is either `Stored` or `Elided` (an empty base type
  whose only value is its own instance).
- `unique.dfy` (module `Unique`): `UniquePtr` for both forms (`isArray`), the
  `Deleter` kinds, and the `DeletionLog`.
- `scenarios.dfy` (module `Scenarios`): client code driving handles through
  whole lifetimes, with the resulting counts and deleter calls as contracts.

Behaviours kept exactly as the code has them:

- `DecrementSharedCount` runs `Deleter()` before decrementing. For a
  self-referencing payload, the weak drop inside `Deleter()` therefore cannot
  free the block. The block is freed once, by the joint-zero test after the
  decrement. `ControlBlockSpec.DeleterBeforeDecrementFreesOnce` shows that the
  other order would free it twice.
- `SharedPtr` copy assignment, `WeakPtr` copy assignment and
  `IntrusivePtr::Reset(T*)` release before they acquire, with no identity
  check. Their preconditions therefore require either a different object, or a
  count that the release cannot bring to zero.
- A null raw pointer still gets a block with strong count 1. `operator bool`
  tests only the presented address.
- `UniquePtr` move assignment installs the incoming deleter before `Reset`.
  The old address is therefore deleted with the incoming deleter.
- `UniquePtr::Reset(p)` calls the deleter whenever `Get() != p`, even on a null
  old address.
- `SharedPtr::Reset(ptr)` builds a fresh block but does not wire an
  EnableSharedFromThis payload's `weak_this_`. Only the two constructors do.
- `WeakPtr::Reset()` clears the block but leaves `ptr_` as it was.

Less obvious consequences of the code, kept as written:
- An aliasing `SharedPtr` made from an empty handle has no block but presents
  the given address. `Get()` returns it and `operator bool` is true; the
  address is not treated as absent.
- `UniquePtr::Reset(p)` on an empty handle with non-null `p` is not a no-op. It
  calls the deleter once, on null.
- The array form's converting move constructor takes the other handle's deleter
  only when it also takes its pointer. From a null source, the new handle keeps
  a value-initialised deleter and the source keeps its own.
- `IntrusivePtr::Reset(T*)` has no distinctness check, unlike the two
  assignments. Resetting to the held pointer with count 1 destroys the object
  before adding the new reference.

## Model

| member | source | states |
|---|---|---|
| ControlBlockSpec.Created | shared_and_weak/sw_fwd.h:16-17 | a new block has strong count 1, weak count 0, nothing destroyed or freed, and satisfies the lifetime invariant |
| ControlBlockSpec.IncShared | shared_and_weak/sw_fwd.h:20-22 | one strong reference more, nothing else changes; from a live block the lifetime invariant still holds |
| ControlBlockSpec.IncWeak | shared_and_weak/sw_fwd.h:32-34 | one weak reference more, nothing else changes; on a block not yet freed the lifetime invariant still holds |
| ControlBlockSpec.WireSelf | shared_and_weak/shared.h:100-102 | the payload's `weak_this_` becomes one more weak reference to the block; from a live block the lifetime invariant still holds |
| ControlBlockSpec.DecWeak | shared_and_weak/sw_fwd.h:35-39 | a weak decrement lowers the weak count by one, never destroys the payload, and frees the block exactly when both counts are then zero |
| ControlBlockSpec.DecShared | shared_and_weak/sw_fwd.h:23-31 | a strong decrement destroys the payload exactly when the count before it was 1; a self-reference is dropped with the payload; the block is freed exactly when both counts are zero afterwards |
| ControlBlockSpec.DeleterBeforeDecrementFreesOnce | shared_and_weak/sw_fwd.h:23-31 | with a self-referencing payload holding the only weak reference, Deleter-then-decrement frees the block once; decrement-then-Deleter would free it twice |
| ControlBlockSpec.StepPreservesInv | shared_and_weak/sw_fwd.h:20-39 | every legal counter operation keeps the lifetime invariant |
| ControlBlockSpec.RunPreservesInv | shared_and_weak/sw_fwd.h:20-39 | the lifetime invariant holds after any legal sequence of operations |
| ControlBlockSpec.NoDoubleDestroyOrFree | shared_and_weak/sw_fwd.h:23-39 | from creation, under any legal trace, the payload is destroyed at most once and exactly when the strong count is 0; the block is freed at most once and exactly when both counts are 0 |
| ControlBlockSpec.CopiesThenDrops | shared_and_weak/sw_fwd.h:20-31 | n strong copies then n drops, while another owner exists, leave the block state unchanged: nothing destroyed or freed |
| ControlBlockSpec.LastOwnerDestroys | shared_and_weak/sw_fwd.h:23-31 | after n copies and n drops the payload is still alive; the next drop destroys it exactly once and frees the block |
| ControlBlockSpec.WeakDrops | shared_and_weak/sw_fwd.h:35-39 | dropping k weak references lowers the weak count by k and destroys nothing |
| ControlBlockSpec.StrongDrops | shared_and_weak/sw_fwd.h:23-31 | dropping all m strong references destroys the payload once, at the last drop, and takes the self-reference with it |
| ControlBlockSpec.ReleaseInEitherOrder | shared_and_weak/sw_fwd.h:23-39 | releasing all strong then all weak references, or the reverse, both end with the payload destroyed once and the block freed once |
| SharedAndWeak.ControlBlock.External | shared_and_weak/sw_fwd.h:77-86 | a `ControlBlockPtr` starts in the created state and `Get()` returns the pointer it was given |
| SharedAndWeak.ControlBlock.Inline | shared_and_weak/sw_fwd.h:58-67 | a `ControlBlockObj` starts in the created state; `Get()` is its inline object; a self-referencing object starts with an empty `weak_this_` |
| SharedAndWeak.ControlBlock.IncrementSharedCount | shared_and_weak/sw_fwd.h:20-22 | the strong count rises by one; nothing else changes |
| SharedAndWeak.ControlBlock.IncrementWeakCount | shared_and_weak/sw_fwd.h:32-34 | the weak count rises by one; nothing else changes |
| SharedAndWeak.ControlBlock.Deleter | shared_and_weak/sw_fwd.h:62-82 | the payload is destroyed once; an external block deletes exactly its pointer; an inline one deletes nothing; a self-referencing payload releases its own weak reference |
| SharedAndWeak.ControlBlock.DecrementSharedCount | shared_and_weak/sw_fwd.h:23-31 | performs exactly `DecShared`; deletes the external pointer only on the last strong drop |
| SharedAndWeak.ControlBlock.DecrementWeakCount | shared_and_weak/sw_fwd.h:35-39 | performs exactly `DecWeak` and deletes nothing |
| SharedAndWeak.ControlBlock.GetSharedCount | shared_and_weak/sw_fwd.h:42-44 | the strong count; under the invariant it is positive exactly while the payload has not been destroyed |
| SharedAndWeak.ControlBlock.GetWeakCount | shared_and_weak/sw_fwd.h:45-47 | the weak count; it includes a wired self-reference, and once the payload is gone it is 0 exactly when the block has been freed |
| SharedAndWeak.ControlBlock.Get | shared_and_weak/sw_fwd.h:84-86 | the payload's address (the inline form at sw_fwd.h:65-67 alike); it is the EnableSharedFromThis part's address, and for an external payload the one `delete` receives on the last strong drop only |
| SharedAndWeak.EnableSharedFromThis.constructor | shared_and_weak/shared.h:10-34 | a new object's `weak_this_` is empty |
| SharedAndWeak.EnableSharedFromThis.SharedFromThis | shared_and_weak/shared.h:13-19 | once owned, returns a new owner of the same block presenting the object's own address, strong count +1; before capture or after destruction, an empty handle |
| SharedAndWeak.EnableSharedFromThis.WeakFromThis | shared_and_weak/shared.h:21-27 | a copy of `weak_this_`: same block and address, weak count +1 |
| SharedAndWeak.SharedPtr.Empty | shared_and_weak/shared.h:41-44 | no block and a null address |
| SharedAndWeak.SharedPtr.FromRaw | shared_and_weak/shared.h:46-53 | a fresh external block owns `p` (null included), `Get() == p`; a self-referencing payload is wired, weak count 1 |
| SharedAndWeak.SharedPtr.FromInline | shared_and_weak/shared.h:54-61 | adopts the block's initial reference without counting, presents its inline object, wires a self-referencing payload |
| SharedAndWeak.SharedPtr.Copy | shared_and_weak/shared.h:73-75 | the copy constructor, and the converting one at shared.h:63-66: same block and address; strong count +1 |
| SharedAndWeak.SharedPtr.Alias | shared_and_weak/shared.h:82-87 | same block, strong count +1, but presents the given address |
| SharedAndWeak.SharedPtr.Move | shared_and_weak/shared.h:77-81 | the move constructor, and the converting one at shared.h:67-72: takes over block and address, empties the source, changes no count |
| SharedAndWeak.SharedPtr.Promote | shared_and_weak/shared.h:89-98 | fails with BadWeakPtr exactly when the weak handle is expired, changing nothing; otherwise a new owner with strong count +1 |
| SharedAndWeak.SharedPtr.InitWeakThis | shared_and_weak/shared.h:99-102 | the payload's `weak_this_` now refers to this block and address; the weak count rises by one |
| SharedAndWeak.SharedPtr.IncreaseCount | shared_and_weak/shared.h:131-135 | performs `IncShared` on the block, if there is one |
| SharedAndWeak.SharedPtr.DecreaseCount | shared_and_weak/shared.h:136-140 | performs `DecShared` on the block, if there is one, and keeps the block consistent |
| SharedAndWeak.SharedPtr.CopyAssign | shared_and_weak/shared.h:106-112 | the old block loses one strong reference and stays consistent (its payload's `weak_this_` stays wired while other owners remain), the new one gains one, and the same block is left unchanged; requires strong ≥ 2 when both handles share a block |
| SharedAndWeak.SharedPtr.MoveAssign | shared_and_weak/shared.h:113-120 | the old block loses one strong reference and stays consistent; block and address are taken over and the source is emptied; moving into itself empties the handle |
| SharedAndWeak.SharedPtr.Reset | shared_and_weak/shared.h:141-145 | the old block loses one strong reference; both fields null, `UseCount() == 0` |
| SharedAndWeak.SharedPtr.ResetTo | shared_and_weak/shared.h:146-151 | the old block loses one strong reference; a fresh external block owns `p` with `UseCount() == 1`, and `weak_this_` is not wired |
| SharedAndWeak.SharedPtr.Swap | shared_and_weak/shared.h:152-155 | exchanges blocks and addresses; no count changes |
| SharedAndWeak.SharedPtr.UseCount | shared_and_weak/shared.h:168-170 | 0 without a block, otherwise the block's strong count, which is at least 1 for a live handle |
| SharedAndWeak.SharedPtr.AsBool | shared_and_weak/shared.h:171-173 | tests the presented address, `Get()` (shared.h:159-161), only: a valid handle owning a null pointer tests false while its use count is at least 1 |
| SharedAndWeak.Equal | shared_and_weak/shared.h:186-189 | compares the presented addresses `Get()` (shared.h:159-161) and ignores blocks: reflexive; equal across different blocks presenting one address; unequal for aliases of one block presenting different addresses |
| SharedAndWeak.MakeShared | shared_and_weak/shared.h:191-195 | one inline block presenting its object, `UseCount() == 1`; a self-referencing object is wired to it |
| SharedAndWeak.WeakPtr.Empty | shared_and_weak/weak.h:10-11 | no block; `UseCount() == 0` and `Expired()` |
| SharedAndWeak.WeakPtr.Copy | shared_and_weak/weak.h:13-19 | same block and address; weak count +1, strong count unchanged |
| SharedAndWeak.WeakPtr.Move | shared_and_weak/weak.h:20-30 | takes over block and address, empties the source, changes no count |
| SharedAndWeak.WeakPtr.FromShared | shared_and_weak/weak.h:31-35 | same block and address as the owner; weak count +1, strong count unchanged |
| SharedAndWeak.WeakPtr.IncreaseCount | shared_and_weak/weak.h:65-69 | performs `IncWeak` on the block, if there is one |
| SharedAndWeak.WeakPtr.DecreaseCount | shared_and_weak/weak.h:70-74 | performs `DecWeak` on the block, if there is one |
| SharedAndWeak.WeakPtr.CopyAssign | shared_and_weak/weak.h:39-45 | the old block loses one weak reference, the new one gains one, and the same block is left unchanged |
| SharedAndWeak.WeakPtr.MoveAssign | shared_and_weak/weak.h:47-54 | the old block loses one weak reference; block and address are taken over, the source is emptied, and the transferred block's counts do not change |
| SharedAndWeak.WeakPtr.Reset | shared_and_weak/weak.h:75-78 | the block loses this weak reference and is forgotten (`UseCount() == 0`), the address is kept; for a payload's own `weak_this_`, the self-reference is dropped |
| SharedAndWeak.WeakPtr.Swap | shared_and_weak/weak.h:79-82 | exchanges blocks and addresses; no count changes |
| SharedAndWeak.WeakPtr.UseCount | shared_and_weak/weak.h:87-89 | 0 without a block, otherwise the block's strong count; for a consistent block it is positive exactly while the payload has not been destroyed, and the payload's own `weak_this_` always sees at least 1 |
| SharedAndWeak.WeakPtr.Expired | shared_and_weak/weak.h:90-92 | for a consistent block, expired exactly when the payload has been destroyed |
| SharedAndWeak.WeakPtr.Lock | shared_and_weak/weak.h:93-98 | while the payload is alive, a new owner of the same block and address, strong count +1; otherwise an empty handle and no count changes; never fails |
| Intrusive.SimpleCounter.constructor | intrusive/intrusive.h:35-36 | the counter starts at 0 |
| Intrusive.SimpleCounter.IncRef | intrusive/intrusive.h:11-13 | `RefCount()` (intrusive.h:17-19) rises by one and the new value is returned |
| Intrusive.SimpleCounter.DecRef | intrusive/intrusive.h:14-16 | `RefCount()` (intrusive.h:17-19) falls by one and the new value is returned |
| Intrusive.RefCounted.constructor | intrusive/intrusive.h:35-36 | a new pointee has count 0 and is alive |
| Intrusive.RefCounted.IncRef | intrusive/intrusive.h:64-67 | the embedded count rises by one |
| Intrusive.RefCounted.DecRef | intrusive/intrusive.h:69-75 | the count falls by one; the object is destroyed exactly when the result is 0, and never twice |
| Intrusive.RefCounted.RefCount | intrusive/intrusive.h:77-79 | the embedded counter's value; an object with a positive count has not been destroyed |
| Intrusive.IntrusivePtr.Empty | intrusive/intrusive.h:92-96 | a null handle with `UseCount() == 0` |
| Intrusive.IntrusivePtr.FromRaw | intrusive/intrusive.h:97-101 | adopts `p` and raises its count by one; null touches nothing |
| Intrusive.IntrusivePtr.Copy | intrusive/intrusive.h:113-117 | same pointee; its count +1 |
| Intrusive.IntrusivePtr.Move | intrusive/intrusive.h:118-120 | takes over the pointer, nulls the source, changes no count |
| Intrusive.IntrusivePtr.CopyAssign | intrusive/intrusive.h:123-134 | same pointer: nothing changes; otherwise the old pointee loses one reference (destroyed if 0) and the new one gains one |
| Intrusive.IntrusivePtr.MoveAssign | intrusive/intrusive.h:135-144 | same pointer: nothing changes and the source keeps it; otherwise the old pointee loses one reference and the pointer moves over |
| Intrusive.IntrusivePtr.Reset | intrusive/intrusive.h:152-157 | the pointee loses one reference (destroyed if 0); the handle is null, `UseCount() == 0` |
| Intrusive.IntrusivePtr.ResetTo | intrusive/intrusive.h:158-166 | the old pointee loses one reference, `p` gains one; resetting to the held pointer needs a count of at least 2 and leaves it unchanged |
| Intrusive.IntrusivePtr.Swap | intrusive/intrusive.h:167-169 | exchanges the pointers; no count changes |
| Intrusive.IntrusivePtr.UseCount | intrusive/intrusive.h:181-183 | 0 for null, otherwise the pointee's count, which is at least 1 for a live handle |
| Intrusive.IntrusivePtr.Get | intrusive/intrusive.h:172-174 | the held pointer; a live handle never presents a destroyed pointee, and its count is at least 1 |
| Intrusive.IntrusivePtr.AsBool | intrusive/intrusive.h:184-186 | non-null pointer; for a live handle, true exactly when `UseCount() >= 1` |
| Intrusive.MakeIntrusive | intrusive/intrusive.h:194-197 | a new live pointee held by one handle, `UseCount() == 1` |
| CompressedPairs.Compress.Default | unique/compressed_pair.h:11-12 | a stored slot holds the value-initialised value |
| CompressedPairs.Compress.Value | unique/compressed_pair.h:15-20 | `Get()` (compressed_pair.h:35-40, 57-62) presents the given value for a stored slot; an elided slot discards it and presents its own instance |
| CompressedPairs.Compress.Set | unique/compressed_pair.h:35-37 | writing through `Get()` (compressed_pair.h:35-40, 57-62) changes a stored slot to the value and leaves an elided slot presenting its instance |
| CompressedPairs.Compress.Assign | unique/compressed_pair.h:21-27 | the slot takes the other's value; assigning a slot to itself is a no-op |
| CompressedPairs.CompressedPair.Default | unique/compressed_pair.h:69 | both stored slots value-initialised |
| CompressedPairs.CompressedPair.Make | unique/compressed_pair.h:72-78 | `GetFirst()` and `GetSecond()` (compressed_pair.h:80-92) present the given values, or the elided instances |
| CompressedPairs.CompressedPair.SetFirst | unique/compressed_pair.h:80-82 | `GetFirst()` (compressed_pair.h:80-85) presents the written value (a stored slot) and `GetSecond()` never changes |
| CompressedPairs.CompressedPair.SetSecond | unique/compressed_pair.h:87-89 | `GetSecond()` (compressed_pair.h:87-92) presents the written value (a stored slot) and `GetFirst()` never changes |
| Unique.DeletionLog.Invoke | unique/unique.h:15-17 | each deleter call is appended to the log, with the deleter and the address |
| Unique.UniquePtr.constructor | unique/unique.h:26-31 | adopts `p` with the given or default deleter; no deleter runs |
| Unique.UniquePtr.MoveFrom | unique/unique.h:32-36 | takes the source's deleter and pointer, leaves the source null with its deleter; no deleter runs |
| Unique.UniquePtr.MoveFromArray | unique/unique.h:133-139 | from a non-null source, takes its deleter and pointer and nulls it; from a null source, keeps a null address and the value-initialised deleter; no deleter runs |
| Unique.UniquePtr.Release | unique/unique.h:61-65 | returns the held address, `Get()` (unique.h:81-83), and leaves it null, so `operator bool` (unique.h:90-92) is false; the deleter, `GetDeleter()` (unique.h:84-89), is untouched and no deleter runs |
| Unique.UniquePtr.Reset | unique/unique.h:66-73 | if `Get() != p`, exactly one call of `GetDeleter()` on the old address (even null); afterwards `Get() == p` and `operator bool` is true exactly for non-null `p`; otherwise nothing |
| Unique.UniquePtr.AssignNull | unique/unique.h:47-57 | a handle for which `operator bool` was true has its address deleted exactly once; an empty handle runs no deleter; afterwards `operator bool` is false |
| Unique.UniquePtr.MoveAssign | unique/unique.h:41-46 | holds the source's address and deleter and nulls the source; the old address, if different, is deleted once with the incoming deleter; self-move deletes null |
| Unique.UniquePtr.Swap | unique/unique.h:74-77 | exchanges both `Get()` and `GetDeleter()` between the handles |
| Scenarios.SelfReferencingLifetime | shared_and_weak/shared.h:13-15 | `SharedFromThis` on a `MakeShared` object gives a second owner of the same address; dropping both destroys the object and frees the block exactly once each |
| Scenarios.NullRawPointer | shared_and_weak/shared.h:171-173 | a handle built from null has `UseCount() == 1` but tests false; dropping it deletes null once |
| Scenarios.EqualityIgnoresBlocks | shared_and_weak/shared.h:186-189 | an alias differs from its source although they share a block; aliases on unrelated blocks with the same address are equal |
| Scenarios.CopyAssignKeepsOtherOwner | shared_and_weak/shared.h:106-112 | copy-assigning one of two owners of a self-referencing object elsewhere leaves the block consistent, its `weak_this_` wired, one owner, and nothing deleted |
| Scenarios.MoveAssignKeepsOtherOwner | shared_and_weak/shared.h:113-120 | the same for move assignment |
| Scenarios.WeakOutlivesOwner | shared_and_weak/weak.h:87-98 | after the last owner goes, the weak handle is expired, `Lock` is empty, promotion fails; the block is freed when the weak handle goes |
| Scenarios.IntrusiveLifetime | intrusive/intrusive.h:71-75 | two handles on one pointee: counts 1, 2, 1, 0, and the object is destroyed exactly once |
| Scenarios.UniqueLifetime | unique/unique.h:32-57 | after a move, the address is deleted exactly once, by the last holder; the moved-from handle deletes nothing |
| Scenarios.MoveAssignUsesIncomingDeleter | unique/unique.h:41-46 | move assignment deletes the old address with the incoming deleter |
| Scenarios.ResetOfEmptyHandle | unique/unique.h:66-73 | resetting an empty handle to an address calls the deleter once, on null |

## Left out

- Memory itself is not modelled: `new`/`delete`, placement new, `alignas` byte storage, `delete this`. They appear as the ghost counters `destroys`/`frees`, the `deleted` log and `DeletionLog`. The single allocation of `MakeShared` is therefore not observable.
- Template machinery is not modelled: the `Y*`→`T*` converting constructors, the `std::is_convertible_v` dispatch, and `DefaultDeleter`'s converting constructor. A handle has one payload type. Whether that type derives from EnableSharedFromThis is carried by the block's `esft` (`selfReferencing` for inline blocks).
- `const` overloads (`SharedFromThis() const`, `WeakFromThis() const`, `Get() const`) are not modelled separately; they behave like the non-const ones.
- Dereference operators (`*`, `->`) and the array form's `operator[]` are left out. They read or address the pointee, which is not modelled. Array bounds are not modelled either.
- `BadWeakPtr` is a result (`Promotion.BadWeakPtr`), not a thrown exception.
- Destructors are modelled by the `Reset()` they call: `SharedPtr`, `WeakPtr`, `IntrusivePtr`, and `UniquePtr` through `AssignNull`.
- `size_t` wrap-around is not modelled: counts are unbounded `nat`. A decrement of a zero count is excluded by a precondition, never performed.
- Threads are not modelled: the counters are plain non-atomic fields and the code is sequential.
- `RefCounted`'s copy and move constructors (intrusive/intrusive.h:41-46) are left out because they do not compile when instantiated (`counter_(other)`).
- `RefCounted`'s copy and move assignments (intrusive/intrusive.h:48-62) are left out. They act on the pointee's own embedded count, not on any handle.
- `RefCounted`'s destructor (intrusive/intrusive.h:37-39) is left out. Its `DecRef` runs after the protocol's `DecRef` has reached 0 and destroyed the object, so it acts on an already-destroyed object. It only wraps that object's count from 0 to `SIZE_MAX` (no second `Destroy`), which nothing can observe.
- `RefCounted`'s `Counter` and `Deleter` parameters are fixed to `SimpleCounter` and `DefaultDelete`. Destruction is recorded as `destroys`.
- `Compress`'s move assignment from `const Compress&&` is left out; it does not compile for non-trivial use. The empty-base layout and object sizes are also left out. Only the values the slots present are modelled (`Layout.Elided`).
- Intrusive.SimpleCounter.constructor: modelled as value-initialisation to 0, as `RefCounted()` performs with `counter_()`. `SimpleCounter`'s own defaulted constructor would leave `count_` indeterminate.
- SharedAndWeak.SharedPtr.FromRaw: requires an EnableSharedFromThis object's `weak_this_` to be empty and its address non-null. Capturing an object that is already owned (double ownership), or wiring through a null pointer, is excluded rather than modelled.
- SharedAndWeak.SharedPtr.ResetTo: requires the same of an EnableSharedFromThis object passed to it.
- SharedAndWeak.SharedPtr.FromInline: requires the block to be consistent with its initial strong reference still unclaimed. The source only uses it on a block it has just created.
- SharedAndWeak.WeakPtr.CopyAssign: its contract, and those of the other user-facing `WeakPtr` operations, require that the handle is not a payload's own `weak_this_`. Application code cannot name that private member.
- Intrusive.IntrusivePtr.CopyAssign: its contract, with `MoveAssign` and `ResetTo`, assumes that distinct pointees embed distinct counters (`DistinctCounters`), as C++ objects with a counter member always do.
- CompressedPairs.Compress.Assign: models the value semantics `operator=(const Compress&)` intends (copy through a temporary, then swap; self-assignment a no-op). As written it cannot be instantiated: the user-declared `operator=(const Compress&&)` deletes the implicit copy constructor that `Compress temp(other)` needs. `UniquePtr` never uses it.
- Deleters are modelled as values (`Deleter`). A deleter passed on by `std::move(other.GetDeleter())` (unique/unique.h:34, 43) is copied: the moved-from handle keeps its deleter's value (`UniquePtr.MoveFrom`, `MoveFromArray`, `MoveAssign`), whereas a stateful deleter's own move could change it.
- Unique.UniquePtr.Swap: requires two different handles not to share slots, and both deleter slots to have the same layout (the same deleter type). `MoveAssign` has the same requirements.
- SharedAndWeak.SharedPtr.CopyAssign: payloads are bare addresses and hold no handles (apart from `weak_this_`). Assigning from a handle owned by the payload that the release destroys (`node = node->next`) is outside the model; in the source it reads `other` after it was destroyed. The same holds for `SharedAndWeak.SharedPtr.MoveAssign`, `Intrusive.IntrusivePtr.CopyAssign`, `Intrusive.IntrusivePtr.MoveAssign` and `Intrusive.IntrusivePtr.ResetTo`, which also release before they acquire.
