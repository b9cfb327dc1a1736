/**
  The reference-counting discipline of one control block (shared_and_weak/sw_fwd.h),
  as a state machine on values. The `ControlBlock` class of module SharedAndWeak
  is proved to follow these transitions exactly; the lemmas here state what the
  transitions guarantee over any legal sequence of handle operations.
*/
module ControlBlockSpec {

  /** What the model observes of one control block:
      - `strong`, `weak`: `shared_count_` and `weak_count_`;
      - `selfRef`: the payload is an EnableSharedFromThis whose `weak_this_`
        currently refers to this block (that reference is one of the `weak`);
      - `destroys`: how many times `Deleter()` has run;
      - `frees`: how many times the block has run `delete this`. */
  datatype BlockState = BlockState(
    strong: nat,
    weak: nat,
    selfRef: bool,
    destroys: nat,
    frees: nat)

  /** Weak references held by handles other than the payload's own `weak_this_`. */
  function ExternalWeak(s: BlockState): int
  {
    s.weak - (if s.selfRef then 1 else 0)
  }

  /** The lifetime invariant: the payload is destroyed at most once, exactly
      when no strong reference is left; the block is freed at most once,
      exactly when neither counter is positive; a wired self-reference only
      exists while the payload is alive, and it is counted as a weak reference. */
  predicate Inv(s: BlockState)
  {
    && s.destroys <= 1
    && s.frees <= 1
    && (s.destroys == 0 <==> s.strong > 0)
    && (s.frees == 1 <==> s.strong == 0 && s.weak == 0)
    && (s.selfRef ==> s.strong > 0 && s.weak > 0)
  }

  /** `ControlBlock()`: one strong reference (the creating handle), no weak one. */
  function Created(): (s: BlockState)
    ensures s.strong == 1 && s.weak == 0 && s.destroys == 0 && s.frees == 0
    ensures Inv(s)
  {
    BlockState(1, 0, false, 0, 0)
  }

  /** `IncrementSharedCount()`: one strong reference more. Copying from a live
      owner keeps the invariant. */
  function IncShared(s: BlockState): (r: BlockState)
    ensures r.strong == s.strong + 1 && r.weak == s.weak && r.selfRef == s.selfRef
    ensures r.destroys == s.destroys && r.frees == s.frees
    ensures Inv(s) && s.strong >= 1 ==> Inv(r)
  {
    s.(strong := s.strong + 1)
  }

  /** `IncrementWeakCount()`: one weak reference more. On a block not yet freed
      this keeps the invariant, whether or not the payload is alive. */
  function IncWeak(s: BlockState): (r: BlockState)
    ensures r.weak == s.weak + 1 && r.strong == s.strong && r.selfRef == s.selfRef
    ensures r.destroys == s.destroys && r.frees == s.frees
    ensures Inv(s) && s.frees == 0 ==> Inv(r)
  {
    s.(weak := s.weak + 1)
  }

  /** The joint-zero test that follows every decrement: `delete this`. */
  function FreeIfUnused(s: BlockState): BlockState
  {
    if s.strong == 0 && s.weak == 0 then s.(frees := s.frees + 1) else s
  }

  /** `DecrementWeakCount()`: one weak reference less; the block is freed when
      both counters are now zero; the payload is never touched. */
  function DecWeak(s: BlockState): (r: BlockState)
    requires s.weak >= 1
    ensures r.weak == s.weak - 1 && r.strong == s.strong && r.selfRef == s.selfRef
    ensures r.destroys == s.destroys
    ensures r.frees == s.frees + (if r.strong == 0 && r.weak == 0 then 1 else 0)
  {
    FreeIfUnused(s.(weak := s.weak - 1))
  }

  /** The payload's `weak_this_` is reset (its destructor runs): a weak
      decrement, after which the self-reference no longer points here. */
  function DropSelfRef(s: BlockState): BlockState
    requires s.weak >= 1
  {
    DecWeak(s).(selfRef := false)
  }

  /** `Deleter()`: the payload is destroyed; an EnableSharedFromThis payload
      drops its own weak reference to the block while it is destroyed. */
  function DestroyPayload(s: BlockState): BlockState
    requires s.selfRef ==> s.weak >= 1
  {
    var t := s.(destroys := s.destroys + 1);
    if t.selfRef then DropSelfRef(t) else t
  }

  /** `DecrementSharedCount()`: `Deleter()` runs first when the count is 1, the
      counter is decremented afterwards, then the joint-zero test frees the block.
      Its contract says, in closed form: the payload is destroyed exactly when the
      count before the call was 1, the self-reference goes with it, and the block
      is freed exactly when both counters are zero afterwards. */
  function DecShared(s: BlockState): (r: BlockState)
    requires s.strong >= 1 && (s.strong == 1 && s.selfRef ==> s.weak >= 1)
    ensures r.strong == s.strong - 1
    ensures r.destroys == s.destroys + (if s.strong == 1 then 1 else 0)
    ensures r.weak == s.weak - (if s.strong == 1 && s.selfRef then 1 else 0)
    ensures r.selfRef == (s.selfRef && s.strong > 1)
    ensures r.frees == s.frees + (if r.strong == 0 && r.weak == 0 then 1 else 0)
  {
    var t := if s.strong == 1 then DestroyPayload(s) else s;
    FreeIfUnused(t.(strong := t.strong - 1))
  }

  /** `InitWeakThis`: a weak handle made from the new owner is moved into the
      payload's (empty) `weak_this_`. */
  function WireSelf(s: BlockState): (r: BlockState)
    ensures r.weak == s.weak + 1 && r.selfRef && r.strong == s.strong
    ensures r.destroys == s.destroys && r.frees == s.frees
    ensures Inv(s) && s.strong >= 1 ==> Inv(r)
  {
    s.(weak := s.weak + 1, selfRef := true)
  }

  /** The other order, decrement first and destroy afterwards. The source does
      not do this; it is here to show why the order matters. */
  function DecSharedDecrementFirst(s: BlockState): BlockState
    requires s.strong >= 1 && (s.strong == 1 && s.selfRef ==> s.weak >= 1)
  {
    var t := s.(strong := s.strong - 1);
    var u := if t.strong == 0 then DestroyPayload(t) else t;
    FreeIfUnused(u)
  }

  /** With a self-referencing payload that holds the only weak reference, the
      source's order (Deleter before the decrement) frees the block once; the
      other order would free it inside the Deleter and once more afterwards. */
  lemma DeleterBeforeDecrementFreesOnce(s: BlockState)
    requires Inv(s) && s.strong == 1 && s.selfRef && s.weak == 1
    ensures DecShared(s).frees == 1 && Inv(DecShared(s))
    ensures DecSharedDecrementFirst(s).frees == 2
  {
  }

  // ---------------------------------------------------------------------------
  // Traces of handle operations

  /** What handles do to a block: copy or drop a strong reference (copy,
      aliasing, promotion and Lock copy; Reset, assignment and destruction drop),
      copy or drop a weak reference held by a user's WeakPtr, and wire an
      EnableSharedFromThis payload's self-reference at capture. */
  datatype Op = ShareCopy | ShareDrop | WeakCopy | WeakDrop | WireSelfRef

  /** When an operation is legal: a strong copy needs a strong handle to copy
      from (nothing is ever incremented after the strong count reached zero),
      a drop needs the reference it drops, a weak copy needs some handle to copy
      from, and a payload is wired at most once, while it is owned. */
  predicate Allowed(s: BlockState, op: Op)
  {
    match op
    case ShareCopy => s.strong >= 1
    case ShareDrop => s.strong >= 1 && (s.strong == 1 && s.selfRef ==> s.weak >= 1)
    case WeakCopy => s.strong >= 1 || ExternalWeak(s) >= 1
    case WeakDrop => ExternalWeak(s) >= 1
    case WireSelfRef => s.strong >= 1 && !s.selfRef
  }

  function Step(s: BlockState, op: Op): BlockState
    requires Allowed(s, op)
  {
    match op
    case ShareCopy => IncShared(s)
    case ShareDrop => DecShared(s)
    case WeakCopy => IncWeak(s)
    case WeakDrop => DecWeak(s)
    case WireSelfRef => WireSelf(s)
  }

  predicate AllowedRun(s: BlockState, ops: seq<Op>)
    decreases |ops|
  {
    |ops| == 0 || (Allowed(s, ops[0]) && AllowedRun(Step(s, ops[0]), ops[1..]))
  }

  function Run(s: BlockState, ops: seq<Op>): BlockState
    requires AllowedRun(s, ops)
    decreases |ops|
  {
    if |ops| == 0 then s else Run(Step(s, ops[0]), ops[1..])
  }

  function Repeat(op: Op, n: nat): (ops: seq<Op>)
    ensures |ops| == n
  {
    if n == 0 then [] else [op] + Repeat(op, n - 1)
  }

  /** Every legal operation keeps the lifetime invariant. */
  lemma StepPreservesInv(s: BlockState, op: Op)
    requires Inv(s) && Allowed(s, op)
    ensures Inv(Step(s, op))
  {
  }

  /** Running two traces one after the other is running their concatenation. */
  lemma {:induction false} RunAppend(s: BlockState, a: seq<Op>, b: seq<Op>)
    ensures AllowedRun(s, a + b) <==> AllowedRun(s, a) && AllowedRun(Run(s, a), b)
    ensures AllowedRun(s, a + b) ==> Run(s, a + b) == Run(Run(s, a), b)
    decreases |a|
  {
    if |a| == 0 {
      assert a + b == b;
    } else {
      assert (a + b)[0] == a[0];
      assert (a + b)[1..] == a[1..] + b;
      if Allowed(s, a[0]) {
        RunAppend(Step(s, a[0]), a[1..], b);
      }
    }
  }

  /** The invariant holds after any legal trace. */
  lemma {:induction false} RunPreservesInv(s: BlockState, ops: seq<Op>)
    requires Inv(s) && AllowedRun(s, ops)
    ensures Inv(Run(s, ops))
    decreases |ops|
  {
    if |ops| > 0 {
      StepPreservesInv(s, ops[0]);
      RunPreservesInv(Step(s, ops[0]), ops[1..]);
    }
  }

  /** From creation, under any legal sequence of handle operations, the payload
      is destroyed at most once and only when the strong count is zero, and the
      block is freed at most once and only when both counts are zero. */
  lemma {:induction false} NoDoubleDestroyOrFree(ops: seq<Op>)
    requires AllowedRun(Created(), ops)
    ensures Run(Created(), ops).destroys <= 1
    ensures Run(Created(), ops).frees <= 1
    ensures Run(Created(), ops).destroys == 1 <==> Run(Created(), ops).strong == 0
    ensures Run(Created(), ops).frees == 1 <==> Run(Created(), ops).strong == 0 && Run(Created(), ops).weak == 0
  {
    RunPreservesInv(Created(), ops);
  }

  /** n strong copies followed by n drops leave the block exactly as it was:
      nothing is destroyed or freed while another strong handle remains. */
  lemma {:induction false} CopiesThenDrops(s: BlockState, n: nat)
    requires s.strong >= 1
    ensures AllowedRun(s, Repeat(ShareCopy, n) + Repeat(ShareDrop, n))
    ensures Run(s, Repeat(ShareCopy, n) + Repeat(ShareDrop, n)) == s
  {
    CopiesRaise(s, n);
    DropsLower(s, n);
    RunAppend(s, Repeat(ShareCopy, n), Repeat(ShareDrop, n));
  }

  lemma {:induction false} CopiesRaise(s: BlockState, n: nat)
    requires s.strong >= 1
    ensures AllowedRun(s, Repeat(ShareCopy, n))
    ensures Run(s, Repeat(ShareCopy, n)) == s.(strong := s.strong + n)
    decreases n
  {
    if n > 0 {
      CopiesRaise(IncShared(s), n - 1);
    }
  }

  lemma {:induction false} DropsLower(s: BlockState, n: nat)
    requires s.strong >= 1
    ensures AllowedRun(s.(strong := s.strong + n), Repeat(ShareDrop, n))
    ensures Run(s.(strong := s.strong + n), Repeat(ShareDrop, n)) == s
    decreases n
  {
    if n > 0 {
      var t := s.(strong := s.strong + n);
      assert DecShared(t) == s.(strong := s.strong + n - 1);
      DropsLower(s, n - 1);
    }
  }

  /** The owner and n copies: after n drops the payload is still alive; the
      next drop destroys it, exactly once, and frees the block when no weak
      reference is left. */
  lemma LastOwnerDestroys(n: nat)
    ensures AllowedRun(Created(), Repeat(ShareCopy, n) + Repeat(ShareDrop, n))
    ensures AllowedRun(Created(), Repeat(ShareCopy, n) + Repeat(ShareDrop, n) + [ShareDrop])
    ensures Run(Created(), Repeat(ShareCopy, n) + Repeat(ShareDrop, n)).destroys == 0
    ensures Run(Created(), Repeat(ShareCopy, n) + Repeat(ShareDrop, n) + [ShareDrop]).destroys == 1
    ensures Run(Created(), Repeat(ShareCopy, n) + Repeat(ShareDrop, n) + [ShareDrop]).frees == 1
  {
    var ops := Repeat(ShareCopy, n) + Repeat(ShareDrop, n);
    CopiesThenDrops(Created(), n);
    RunAppend(Created(), ops, [ShareDrop]);
  }

  /** Dropping k external weak references: the counts go down by k, nothing is
      destroyed, and the invariant is kept. */
  lemma {:induction false} WeakDrops(s: BlockState, k: nat)
    requires Inv(s) && ExternalWeak(s) >= k
    ensures AllowedRun(s, Repeat(WeakDrop, k))
    ensures var r := Run(s, Repeat(WeakDrop, k));
      r.strong == s.strong && r.weak == s.weak - k && r.selfRef == s.selfRef &&
      r.destroys == s.destroys && Inv(r)
    decreases k
  {
    if k > 0 {
      StepPreservesInv(s, WeakDrop);
      WeakDrops(DecWeak(s), k - 1);
    }
  }

  /** Dropping all m strong references: the payload is destroyed once, at the
      last drop, and its self-reference goes with it. */
  lemma {:induction false} StrongDrops(s: BlockState, m: nat)
    requires Inv(s) && s.strong == m
    ensures AllowedRun(s, Repeat(ShareDrop, m))
    ensures var r := Run(s, Repeat(ShareDrop, m));
      r.strong == 0 && !r.selfRef &&
      r.weak == s.weak - (if s.selfRef then 1 else 0) &&
      r.destroys == (if m > 0 then s.destroys + 1 else s.destroys) && Inv(r)
    decreases m
  {
    if m > 0 {
      StepPreservesInv(s, ShareDrop);
      StrongDrops(DecShared(s), m - 1);
    }
  }

  /** The block is freed once the last strong and the last weak reference are
      gone, whichever goes last: releasing every strong handle and then every
      weak one, or the weak ones first, both end with the payload destroyed
      once and the block freed once. */
  lemma {:induction false} ReleaseInEitherOrder(s: BlockState)
    requires Inv(s) && s.strong >= 1
    ensures var strongFirst := Repeat(ShareDrop, s.strong) + Repeat(WeakDrop, ExternalWeak(s));
      AllowedRun(s, strongFirst) &&
      Run(s, strongFirst).destroys == 1 && Run(s, strongFirst).frees == 1
    ensures var weakFirst := Repeat(WeakDrop, ExternalWeak(s)) + Repeat(ShareDrop, s.strong);
      AllowedRun(s, weakFirst) &&
      Run(s, weakFirst).destroys == 1 && Run(s, weakFirst).frees == 1
  {
    var k: nat := ExternalWeak(s);
    // strong references first
    StrongDrops(s, s.strong);
    var a := Run(s, Repeat(ShareDrop, s.strong));
    WeakDrops(a, k);
    RunAppend(s, Repeat(ShareDrop, s.strong), Repeat(WeakDrop, k));
    // weak references first
    WeakDrops(s, k);
    var b := Run(s, Repeat(WeakDrop, k));
    StrongDrops(b, s.strong);
    RunAppend(s, Repeat(WeakDrop, k), Repeat(ShareDrop, s.strong));
  }
}
