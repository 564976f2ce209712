/** Conditionals, loops, matches and maybe blocks. */
module Constructs {
  import opened Isa
  import opened Structured
  import opened Labels
  import opened B = Builder
  import opened Control
  import Chunks

  // ----- Conditionals -------------------------------------------------------------------------------

  /** Storage for a conditional that nothing else uses. */
  ghost predicate Spare(b: Builder, f: IfElse)
    reads b, b.pending
  {
    && f != b.pending && f.block != b.pending.block && f.endLabel != b.pending.endLabel
    && f.lsState != b.cur && f.lsState != b.pending.lsState
  }

  /** `f` is the conditional being built: `p` are the branches around its body. */
  ghost predicate Opened(b: Builder, f: IfElse, end: int)
    reads b, b.pending, b.pending.endLabel, f, f.endLabel
  {
    && f != b.pending && f.block != b.pending.block && f.lsState != b.pending.lsState
    && f.orig != f.lsState && f.orig != b.pending.lsState
    && b.cur == f.lsState && f.endLabel.target == NO_POS && Aimed(b, f.endLabel, 0, end)
  }

  method IfStart(b: Builder, f: IfElse, cond: Cond, val: Val, ghost end: int, ghost start: int)
    requires b.Valid() && b.Calm() && Spare(b, f) && cond != Always
    requires Fit(b, GenBranch(b.lsSlot, End, Invert(cond), val, b.cur.now).code, start, end)
    modifies b`instrs, b`stack, b`cur, b.Closing(), b.cur, f, f.block, f.endLabel, f.lsState
    ensures b.Valid() && !b.Active() && b.stack == f.block && f.block.next == old(b.Outer()) && b.View() == b.instrs
    ensures f.orig == old(b.cur) && Opened(b, f, end)
    ensures var p := GenBranch(b.lsSlot, End, Invert(cond), val, old(b.cur.now));
            && f.orig.now == f.lsState.now == p.tr && Appended(b.instrs, old(b.View()), p.code, start)
            && f.endLabel.refs == EndRefs(p.code, |old(b.View())|)
  {
    hide Chained, AllNear, InReach, EndRefs, Appended, GenBranch, Patch;
    b.BlockStart(f.block);
    PatchNothing(b.instrs, |b.instrs|);
    f.endLabel.Init();
    ChainedNone(b.instrs, end);
    BranchLabel(b, f.endLabel, Invert(cond), val, start, end);
    f.orig := b.cur;
    f.lsState.now := f.orig.now;
    b.cur := f.lsState;
  }

  /** The end of the body: the label stays open, in `pending_if`, in case an `else` follows. */
  method IfEnd(b: Builder, f: IfElse)
    requires b.Valid() && b.stack == f.block && f.block.next != b.pending.block && Opened(b, f, |b.instrs|)
    modifies b`stack, b`cur, b.pending, b.pending.block, b.pending.endLabel, b.pending.lsState, f.orig
    ensures b.Valid() && b.Active() && b.Outer() == f.block.next && b.instrs == old(b.instrs)
    ensures b.ActiveRefs() == f.endLabel.refs
    ensures b.cur == b.pending.orig == f.orig && f.orig.now == Join(old(f.orig.now), f.lsState.now)
    ensures b.pending.lsState.now == f.lsState.now
  {
    hide Chained, AllNear, Patch;
    PatchNothing(b.instrs, |b.instrs|);
    b.pending.block.next := f.block.next;
    b.stack := b.pending.block;
    b.pending.endLabel.Copy(f.endLabel);
    b.pending.orig := f.orig;
    b.pending.lsState.now := f.lsState.now;
    f.orig.now := Ls(f.orig.now.loads + f.lsState.now.loads, f.orig.now.stores || f.lsState.now.stores);
    b.cur := f.orig;
  }

  /** A branch over the `else` body is appended, and the `if` label set behind it. */
  method ElseStart(b: Builder, f: IfElse, ghost end: int, ghost start: int)
    requires b.Valid() && b.Active() && Spare(b, f) && b.pending.orig == b.cur
    requires AllNear(b.pending.endLabel.refs, |b.instrs| + 1)
    requires |b.instrs| < end && Near(|b.instrs|, end)
    modifies b`instrs, b`stack, b`cur, b.pending.endLabel, b.cur, f, f.block, f.endLabel, f.lsState
    ensures b.Valid() && !b.Active() && b.stack == f.block && f.block.next == old(b.Outer()) && b.View() == b.instrs
    ensures f.orig == old(b.cur) && Opened(b, f, end) && f.endLabel.refs == [|old(b.instrs)|]
    ensures f.orig.now == f.lsState.now == old(b.cur.now)
    ensures Appended(b.instrs, Patch(old(b.instrs), old(b.ActiveRefs()), |old(b.instrs)| + 1),
                     [ToEnd(Always, 0, old(b.cur.now.loads))], start)
  {
    hide Chained, AllNear, InReach, EndRefs, Patch, Appended;
    ghost var p, s0 := b.pending.endLabel, b.instrs;
    ChainedBelow(s0, p.refs, p.lastForwardRef);
    f.block.next := b.pending.block.next;
    b.stack := f.block;
    f.endLabel.Init();
    PatchNothing(b.instrs, |b.instrs|);
    ChainedNone(b.instrs, end);
    BranchAway(b, f.endLabel, end, start);
    ghost var s1, code := b.instrs, [ToEnd(Always, 0, old(b.cur.now.loads))];
    AppendedSize(s1, s0, code, start);
    ChainedAppended(s1, s0, code, start, p.refs, p.lastForwardRef);
    PatchInFront(s1, s0, code, start, p.refs, |s1|);
    assert f.endLabel.refs == [|s0|];
    ChainedPatched(s1, f.endLabel.refs, f.endLabel.lastForwardRef, p.refs, |s1|) by { assert |s0| !in p.refs; }
    b.SetLabel(b.pending.endLabel);
    PatchNothing(b.instrs, |b.instrs|);
    b.pending.endLabel.Init();
    f.orig := b.pending.orig;
    f.lsState.now := f.orig.now;
    b.cur := f.lsState;
  }

  /** What the end of a construct may change besides when it is the outermost block. */
  ghost function Flushed(b: Builder, block: Block): set<object>
    reads b, b.out, block
  {
    if block.next == null then b.FlushFrame() + {b} else {}
  }

  lemma NothingDisjoint(refs: seq<nat>)
    ensures Disjoint([], refs)
  {
  }

  /** A label is set where the block ends, and the block ends. */
  method SetAndLeave(b: Builder, block: Block, l: Label)
    requires b.Valid() && b.Outer() == block && block.next != b.pending.block && block != b.pending.block
    requires l != b.pending.endLabel && l.target == NO_POS && Chained(b.View(), l.refs, l.lastForwardRef)
    requires AllNear(l.refs, |b.View()|) && Disjoint(b.ActiveRefs(), l.refs)
    requires block.next == null ==> b.Closable(b.View())
    modifies b`instrs, b`stack, b.Closing(), l, Flushed(b, block)
    ensures b.Valid() && !b.Active() && b.stack == block.next && b.cur == old(b.cur)
    ensures var whole := Patch(old(b.View()), old(l.refs), |old(b.View())|);
            if block.next != null then b.instrs == b.View() == whole
            else b.Sent(whole, old(b.pendingMaybes), old(b.Sending()))
  {
    hide Chained, AllNear, Patch, Disjoint, Builder.Sent, Builder.Sending, Builder.Closable;
    ghost var s0 := b.instrs;
    BothEnds(s0, b.Active(), b.ActiveRefs(), b.pending.endLabel.lastForwardRef, l.refs, l.lastForwardRef);
    if block.next == null { b.StillClosable(b.View(), l.refs); }
    b.SetLabel(l);
    b.Leave(block);
  }

  /** The label of the `else` is set and its block ends. The loads and stores of the `if` body are taken
      from `pending_if`, where a later conditional may have left its own. */
  method ElseEnd(b: Builder, f: IfElse)
    requires b.Valid() && b.Outer() == f.block && f.block.next != b.pending.block && f.block != b.pending.block
    requires Opened(b, f, |b.View()|) && Disjoint(b.ActiveRefs(), f.endLabel.refs)
    requires f.block.next == null ==> b.Closable(b.View())
    modifies b`instrs, b`stack, b`cur, b.Closing(), f.endLabel, f.orig, Flushed(b, f.block)
    ensures b.Valid() && !b.Active() && b.stack == f.block.next
    ensures var whole := Patch(old(b.View()), old(f.endLabel.refs), |old(b.View())|);
            if f.block.next != null then b.instrs == b.View() == whole
            else b.Sent(whole, old(b.pendingMaybes), old(b.Sending()))
    ensures b.cur == f.orig && f.orig.now == Join(old(b.pending.lsState.now), old(f.lsState.now))
  {
    hide Chained, AllNear, Patch, Disjoint, Builder.Sent, Builder.Sending, Builder.Closable;
    var ifLs := b.pending.lsState.now;
    SetAndLeave(b, f.block, f.endLabel);
    f.orig.now := Ls(ifLs.loads + f.lsState.now.loads, ifLs.stores || f.lsState.now.stores);
    b.cur := f.orig;
  }

  /** Two labels are set at the same place: the one of the pending `if`, which may have none, and another. */
  lemma BothEnds(s: seq<Instr>, active: bool, a: seq<nat>, lastA: int, b: seq<nat>, lastB: int)
    requires Chained(Patch(s, a, |s|), b, lastB) && Disjoint(a, b) && (active ==> Chained(s, a, lastA))
    ensures Chained(s, b, lastB) && (active ==> Chained(Patch(s, b, |s|), a, lastA))
    ensures Patch(Patch(s, a, |s|), b, |s|) == Patch(Patch(s, b, |s|), a, |s|)
  {
    hide Chained, Patch, Disjoint;
    ChainedUnpatched(s, b, lastB, a, |s|);
    PatchCommutes(s, a, b, |s|);
    if active {
      Turned(a, b);
      ChainedPatched(s, a, lastA, b, |s|);
    }
  }

  lemma Turned(a: seq<nat>, b: seq<nat>)
    requires Disjoint(a, b)
    ensures Disjoint(b, a)
  {
  }

  // ----- Loops --------------------------------------------------------------------------------------

  class Loop {
    const start: Label
    const end: Label
    const block: Block
    const cond: Cond
    const val: Val
    const lsState: LsTracker
    var orig: LsTracker?
    var origCopy: Ls

    constructor (cond: Cond, val: Val)
      ensures this.cond == cond && this.val == val && orig == null && origCopy == IDLE
      ensures fresh(start) && fresh(end) && fresh(block) && fresh(lsState) && start != end
      ensures start.Clear() && end.Clear()
    {
      this.cond, this.val := cond, val;
      start := new Label();
      end := new Label();
      block := new Block();
      lsState := new LsTracker(IDLE);
      orig, origCopy := null, IDLE;
    }
  }

  /** Code that may break out of the loop or go round again can be emitted. */
  ghost predicate Inside(b: Builder, loop: Loop, end: int)
    reads b, b.pending, b.pending.endLabel, loop, loop.start, loop.end
  {
    && loop.orig != null && loop.orig != b.pending.lsState && loop.start != loop.end
    && loop.start != b.pending.endLabel && loop.start.target != NO_POS
    && loop.end.target == NO_POS && Aimed(b, loop.end, loop.start.target, end)
  }

  /** The test in front of a loop; an endless one has none. */
  function Entry(ls: nat, cond: Cond, val: Val, tr: Ls): Piece {
    if cond == Always then Piece([], tr) else GenBranch(ls, End, Invert(cond), val, tr)
  }

  /** A branch back, after a WAIT for loads the start of the loop does not know about. */
  function Again(ls: nat, cond: Cond, val: Val, head: Ls, tr: Ls): Piece {
    var w := WaitIf(ls, tr.loads - head.loads != {}, tr);
    Then(w, GenBranch(ls, Start, cond, val, w.tr))
  }

  method WhileStart(b: Builder, loop: Loop, ghost end: int, ghost start: int)
    requires b.Valid() && b.Calm() && loop.block != b.pending.block && loop.start != loop.end && loop.start.Clear()
    requires loop.end.Clear()
    requires loop.start != b.pending.endLabel && loop.end != b.pending.endLabel && loop.lsState != b.cur
    requires loop.lsState != b.pending.lsState
    requires Fit(b, Entry(b.lsSlot, loop.cond, loop.val, b.cur.now).code, start, end)
    modifies b`instrs, b`stack, b`cur, b.Closing(), b.cur, loop, loop.block, loop.start, loop.end, loop.lsState
    ensures b.Valid() && !b.Active() && b.stack == loop.block && loop.block.next == old(b.Outer())
    ensures b.View() == b.instrs
    ensures loop.orig == old(b.cur) && b.cur == loop.lsState && Inside(b, loop, end)
    ensures var p := Entry(b.lsSlot, loop.cond, loop.val, old(b.cur.now));
            && loop.orig.now == loop.origCopy == loop.lsState.now == p.tr
            && Appended(b.instrs, old(b.View()), p.code, start)
            && loop.start.target == |b.instrs| == |old(b.View())| + |p.code|
            && loop.end.refs == EndRefs(p.code, |old(b.View())|)
  {
    hide Chained, AllNear, InReach, GenBranch, Patch, Emitted;
    b.BlockStart(loop.block);
    PatchNothing(b.instrs, |b.instrs|);
    loop.start.Init();
    loop.end.Init();
    ChainedNone(b.instrs, end);
    AppendedSelf(b.instrs, start);
    if loop.cond != Always {
      BranchLabel(b, loop.end, Invert(loop.cond), loop.val, start, end);
    }
    loop.orig := b.cur;
    loop.origCopy := loop.orig.now;
    loop.lsState.now := loop.orig.now;
    b.cur := loop.lsState;
    ChainedNone(b.instrs, |b.instrs|);
    PatchNothing(b.instrs, |b.instrs|);
    b.SetLabel(loop.start);
  }

  /** What breaks and continues leave in flight may be in flight behind the loop. */
  method Diverge(b: Builder, loop: Loop)
    requires loop.orig != null
    modifies loop.orig
    ensures loop.orig.now == Join(old(loop.orig.now), old(b.cur.now))
  {
    loop.orig.now := Ls(loop.orig.now.loads + b.cur.now.loads, loop.orig.now.stores || b.cur.now.stores);
  }

  method GoAgain(b: Builder, loop: Loop, cond: Cond, val: Val, ghost end: int)
    requires b.Valid() && b.Outer() != null && Inside(b, loop, end) && loop.orig != b.cur
    requires Fit(b, Again(b.lsSlot, cond, val, loop.origCopy, b.cur.now).code, loop.start.target, end)
    modifies b`instrs, b`stack, b.Closing(), b.cur, loop.start
    ensures b.Valid() && !b.Active() && b.stack == old(b.Outer()) && b.View() == b.instrs && Inside(b, loop, end)
    ensures loop.start.target == old(loop.start.target)
    ensures var q := Again(b.lsSlot, cond, val, loop.origCopy, old(b.cur.now));
            && b.cur.now == q.tr && Appended(b.instrs, old(b.View()), q.code, loop.start.target)
            && EndRefs(q.code, |old(b.View())|) == []
  {
    hide Chained, AllNear, InReach, GenBranch, Patch, Emitted, EndRefs;
    ghost var ls, tr, need, s0, at := b.lsSlot, b.cur.now, b.cur.now.loads - loop.origCopy.loads != {}, b.View(),
        loop.start.target;
    ghost var w := WaitIf(ls, need, tr);
    ghost var q := GenBranch(ls, Start, cond, val, w.tr);
    b.FlushPendingIf();
    PatchNothing(b.instrs, |b.instrs|);
    if b.cur.now.loads - loop.origCopy.loads != {} {
      b.FlushLoads();
    }
    PatchNothing(b.instrs, |b.instrs|);
    ghost var s1 := b.instrs;
    Waited(s0, s1, ls, need, tr, at);
    ChainedAppended(s1, s0, w.code, at, loop.end.refs, loop.end.lastForwardRef);
    InReachConcat(w.code, q.code, |s0|, end, at);
    BranchLabel(b, loop.start, cond, val, at, end);
    ChainedAppended(b.instrs, s1, q.code, at, loop.end.refs, loop.end.lastForwardRef);
    AppendedTwice(s0, s1, b.instrs, w.code, q.code, at);
    EndRefsConcat(w.code, q.code, |s0|);
    WaitHasNoEnds(ls, need, tr, |s0|);
    StartHasNoEnds(ls, cond, val, w.tr, |s0| + |w.code|);
  }

  /** `continue` goes to where the body starts, behind the test of the loop condition. */
  method ConditionalContinue(b: Builder, loop: Loop, cond: Cond, val: Val, ghost end: int)
    requires b.Valid() && b.Outer() != null && Inside(b, loop, end) && loop.orig != b.cur
    requires Fit(b, Again(b.lsSlot, cond, val, loop.origCopy, b.cur.now).code, loop.start.target, end)
    modifies b`instrs, b`stack, b.Closing(), b.cur, loop.start, loop.orig
    ensures b.Valid() && !b.Active() && b.stack == old(b.Outer()) && b.View() == b.instrs && Inside(b, loop, end)
    ensures loop.start.target == old(loop.start.target)
    ensures var q := Again(b.lsSlot, cond, val, loop.origCopy, old(b.cur.now));
            && b.cur.now == q.tr && Appended(b.instrs, old(b.View()), q.code, loop.start.target)
            && EndRefs(q.code, |old(b.View())|) == [] && loop.orig.now == Join(old(loop.orig.now), q.tr)
  {
    hide Chained, AllNear, InReach, GenBranch, Patch, Appended, EndRefs, Again;
    GoAgain(b, loop, cond, val, end);
    Diverge(b, loop);
  }

  method ConditionalBreak(b: Builder, loop: Loop, cond: Cond, val: Val, ghost end: int)
    requires b.Valid() && b.Outer() != null && Inside(b, loop, end) && loop.orig != b.cur
    requires Fit(b, GenBranch(b.lsSlot, End, cond, val, b.cur.now).code, loop.start.target, end)
    modifies b`instrs, b`stack, b.Closing(), b.cur, loop.end, loop.orig
    ensures b.Valid() && !b.Active() && b.stack == old(b.Outer()) && b.View() == b.instrs && Inside(b, loop, end)
    ensures var q := GenBranch(b.lsSlot, End, cond, val, old(b.cur.now));
            && b.cur.now == q.tr && Appended(b.instrs, old(b.View()), q.code, loop.start.target)
            && loop.end.refs == old(loop.end.refs) + EndRefs(q.code, |old(b.View())|)
            && loop.orig.now == Join(old(loop.orig.now), q.tr)
  {
    hide Chained, AllNear, InReach, GenBranch, Patch, Appended, EndRefs;
    b.FlushPendingIf();
    PatchNothing(b.instrs, |b.instrs|);
    BranchLabel(b, loop.end, cond, val, loop.start.target, end);
    Diverge(b, loop);
  }

  /** A block of `n` instructions fits the chunks. */
  ghost predicate Room(b: Builder, n: int)
    reads b.out
  {
    n < W32 && (b.out.allocates ==> n + 1 <= b.out.largest)
  }

  /** There is room for the way round, and for all of it in the chunks if the loop is the outermost block. */
  ghost predicate Rounding(b: Builder, loop: Loop)
    reads b, b.cur, b.pending, b.pending.endLabel, b.out, b.out.mems, loop, loop.block, loop.start, loop.end
  {
    var q := Again(b.lsSlot, loop.cond, loop.val, loop.origCopy, b.cur.now).code;
    var end := |b.View()| + |q|;
    && Inside(b, loop, end) && Fit(b, q, loop.start.target, end)
    && (loop.block.next == null ==> b.Closable(b.View()) && Room(b, end))
  }

  /** The loop condition decides whether to go round again. */
  method LastRound(b: Builder, loop: Loop) returns (ghost done: seq<Instr>)
    requires b.Valid() && b.Outer() == loop.block && loop.block != b.pending.block
    requires b.cur == loop.lsState && loop.orig != b.cur
    requires Rounding(b, loop)
    modifies b`instrs, b`stack, b.Closing(), b.cur, loop.start
    ensures b.Valid() && !b.Active() && b.stack == loop.block && b.instrs == b.View() == done
    ensures loop.end != b.pending.endLabel && loop.end.target == NO_POS && b.ActiveRefs() == []
    ensures loop.orig != null && loop.orig != b.pending.lsState && loop.start.target == old(loop.start.target)
    ensures Chained(done, loop.end.refs, loop.end.lastForwardRef) && AllNear(loop.end.refs, |done|)
    ensures loop.end.refs == old(loop.end.refs)
    ensures var q := Again(b.lsSlot, loop.cond, loop.val, loop.origCopy, old(b.cur.now));
            Appended(done, old(b.View()), q.code, loop.start.target) && b.cur.now == q.tr
    ensures loop.block.next == null ==> b.Closable(done)
  {
    hide Chained, AllNear, InReach, GenBranch, Patch, Emitted, EndRefs, Again, Appended, Disjoint, Builder.Closable;
    ghost var q, s0 := Again(b.lsSlot, loop.cond, loop.val, loop.origCopy, b.cur.now).code, b.View();
    GoAgain(b, loop, loop.cond, loop.val, |s0| + |q|);
    done := b.instrs;
    AppendedSize(done, s0, q, loop.start.target);
    if loop.block.next == null { MoreClosable(b, done, s0, q, loop.start.target); }
  }

  /** Then the end of the loop is known. */
  method WhileEnd(b: Builder, loop: Loop) returns (ghost done: seq<Instr>)
    requires b.Valid() && b.Outer() == loop.block && loop.block != b.pending.block
    requires loop.block.next != b.pending.block
    requires b.cur == loop.lsState && loop.orig != b.cur
    requires Rounding(b, loop)
    modifies b`instrs, b`stack, b`cur, b.Closing(), b.cur, loop.start, loop.end, loop.orig, Flushed(b, loop.block)
    ensures b.Valid() && !b.Active() && b.stack == loop.block.next
    ensures var q := Again(b.lsSlot, loop.cond, loop.val, loop.origCopy, old(b.cur.now));
            && Appended(done, old(b.View()), q.code, old(loop.start.target))
            && b.cur == loop.orig && loop.orig.now == Join(old(loop.orig.now), q.tr)
    ensures var whole := Patch(done, old(loop.end.refs), |done|);
            if loop.block.next != null then b.instrs == b.View() == whole
            else b.Sent(whole, old(b.pendingMaybes), old(b.Sending()))
  {
    hide Chained, AllNear, InReach, GenBranch, Patch, Emitted, EndRefs, Again, Appended, Disjoint, Builder.Sent,
         Builder.Sending, Builder.Closable;
    hide Inside, Fit, Room, Builder.View;
    done := LastRound(b, loop);
    NothingDisjoint(loop.end.refs);
    SetAndLeave(b, loop.block, loop.end);
    Resume(b, loop);
  }

  /** Behind the loop, all that may be in flight on a way out of it. */
  method Resume(b: Builder, loop: Loop)
    requires b.cur == loop.lsState && b.Valid() && !b.Active()
    requires loop.orig != b.pending.lsState
    modifies b`cur, loop.orig
    ensures b.Valid() && !b.Active()
    ensures if loop.orig == null then b.cur == old(b.cur)
            else b.cur == loop.orig && loop.orig.now == Join(old(loop.orig.now), old(loop.lsState.now))
  {
    if loop.orig != null {
      loop.orig.now := Ls(loop.orig.now.loads + loop.lsState.now.loads,
                          loop.orig.now.stores || loop.lsState.now.stores);
      b.cur := loop.orig;
    }
  }

  /** LOAD_IPs of a block stay where they are when code is added behind them. */
  lemma MoreClosable(b: Builder, now: seq<Instr>, before: seq<Instr>, code: seq<Item>, start: int)
    requires Appended(now, before, code, start) && b.Closable(before)
    requires |now| < W32 && (b.out.allocates ==> |now| + 1 <= b.out.largest)
    ensures b.Closable(now)
  {
    hide IpChained, Appended;
    AppendedPrefix(now, before, code, start);
    IpsSurviveCode(now, before, b.ips, b.lastLoadIpTarget);
  }

  // ----- Maybe blocks -------------------------------------------------------------------------------

  class MaybeState {
    const block: Block
    const lsState: LsTracker
    var patchPos: nat
    var orig: LsTracker

    constructor (tracker: LsTracker)
      ensures fresh(block) && fresh(lsState) && orig == tracker
    {
      block := new Block();
      lsState := new LsTracker(IDLE);
      orig := tracker;
      patchPos := 0;
    }
  }

  method MaybeStart(b: Builder, st: MaybeState)
    requires b.Valid() && b.Calm() && st.block != b.pending.block && st.lsState != b.cur
    requires st.lsState != b.pending.lsState
    modifies b`instrs, b`stack, b`cur, b.Closing(), st, st.block, st.lsState
    ensures b.Valid() && !b.Active() && b.stack == st.block && st.block.next == old(b.Outer())
    ensures b.instrs == b.View() == old(b.View()) && st.patchPos == |b.instrs|
    ensures st.orig == old(b.cur) && b.cur == st.lsState && st.lsState.now == st.orig.now
  {
    hide Patch, Chained, AllNear;
    b.BlockStart(st.block);
    PatchNothing(b.instrs, |b.instrs|);
    st.patchPos := |b.instrs|;
    st.orig := b.cur;
    st.lsState.now := b.cur.now;
    b.cur := st.lsState;
  }

  function Nops(n: nat): (r: seq<Instr>)
    ensures |r| == n
  {
    seq(n, _ => Nop)
  }

  /** The WAIT at the end of a maybe block, for what it has left in flight. */
  function OwnWait(ls: nat, orig: Ls, tr: Ls): seq<Instr> {
    if tr.loads - orig.loads != {} || (tr.stores && !orig.stores) then [Wait({ls})] else []
  }

  /** The block is kept aside and its place filled with NOPs. */
  method KeepAside(b: Builder, st: MaybeState) returns (m: MaybeBlock)
    requires b.Valid() && b.stack == st.block && st.block != b.pending.block
    requires st.patchPos <= |b.instrs| && b.cur == st.lsState && st.orig != b.cur && st.orig != b.pending.lsState
    modifies b`instrs, b`stack, b`cur, b`pendingMaybes, b.cur
    ensures b.Valid() && !b.Active() && b.stack == st.block && b.cur == st.orig
    ensures fresh(m) && m.patchPos == st.patchPos && m.patchAddr == Chunks.NoPatch
    ensures b.pendingMaybes == [m] + old(b.pendingMaybes)
    ensures m.instrs == old(b.instrs)[st.patchPos..] + OwnWait(b.lsSlot, st.orig.now, old(st.lsState.now))
    ensures b.View() == b.instrs == old(b.instrs)[..st.patchPos] + Nops(|m.instrs|)
  {
    hide Patch, Chained, AllNear;
    var newLoads := b.cur.now.loads - st.orig.now.loads;
    var newStores := b.cur.now.stores && !st.orig.now.stores;
    PatchNothing(b.instrs, |b.instrs|);
    if newLoads != {} || newStores {
      b.WaitSlots({b.lsSlot});
    }
    b.cur := st.orig;
    m := new MaybeBlock(st.patchPos, b.instrs[st.patchPos..]);
    b.pendingMaybes := [m] + b.pendingMaybes;
    b.instrs := b.instrs[..st.patchPos] + Nops(|b.instrs| - st.patchPos);
    PatchNothing(b.instrs, |b.instrs|);
  }

  method MaybeEnd(b: Builder, st: MaybeState) returns (m: MaybeBlock)
    requires b.Valid() && b.stack == st.block && st.block != b.pending.block
    requires st.block.next != b.pending.block
    requires st.patchPos <= |b.instrs| && b.cur == st.lsState && st.orig != b.cur && st.orig != b.pending.lsState
    requires var n := |b.instrs| - st.patchPos + |OwnWait(b.lsSlot, st.orig.now, b.cur.now)|;
             st.block.next == null ==> b.Closable(b.instrs[..st.patchPos] + Nops(n))
    modifies b`instrs, b`stack, b`cur, b`pendingMaybes, b.cur, Flushed(b, st.block)
    ensures b.Valid() && !b.Active() && b.stack == st.block.next && b.cur == st.orig
    ensures fresh(m) && m.patchPos == st.patchPos
    ensures m.instrs == old(b.instrs)[st.patchPos..] + OwnWait(b.lsSlot, st.orig.now, old(st.lsState.now))
    ensures var whole := old(b.instrs)[..st.patchPos] + Nops(|m.instrs|);
            if st.block.next != null
            then b.View() == b.instrs == whole && b.pendingMaybes == [m] + old(b.pendingMaybes)
                 && m.patchAddr == Chunks.NoPatch
            else b.Sent(whole, [m] + old(b.pendingMaybes), old(b.Sending()))
  {
    hide Patch, Chained, AllNear, Builder.Sent, Builder.Sending, Builder.Closable, Builder.View;
    m := KeepAside(b, st);
    b.Leave(st.block);
  }

  /** Put the contents of a maybe block in its place, in the block under construction or, once that has
      been closed, in the chunk it was copied to. */
  method PatchMaybe(b: Builder, m: MaybeBlock, ghost pos: nat)
    requires m.patchAddr.Patch? ==> b.out.Valid() && m.At(b.out, pos)
    requires m.patchAddr.NoPatch? ==> m.patchPos + |m.instrs| <= |b.instrs|
    modifies b`instrs, (if m.patchAddr.Patch? then {b.out} else {})`parts,
             if m.patchAddr.Patch? then {m.patchAddr.cpu} else {}
    ensures m.patchAddr.NoPatch? ==>
             && b.instrs == Chunks.Overwrite(old(b.instrs), m.patchPos, m.instrs)
             && b.out.parts == old(b.out.parts)
    ensures m.patchAddr.Patch? ==>
              && b.instrs == old(b.instrs)
              && b.out.Valid() && m.At(b.out, pos) && pos + |m.instrs| <= |old(b.out.Stream())|
              && |b.out.parts| == |old(b.out.parts)| && Chunks.Extends(b.out.parts, old(b.out.parts))
              && (forall j :: 0 <= j < |b.out.parts| ==> b.out.parts[j].size == old(b.out.parts)[j].size)
              && b.out.Stream() == Chunks.Overwrite(old(b.out.Stream()), pos, m.instrs)
  {
    hide Chunks.CommandStream.Valid, Chunks.Extends, Chunks.Flatten, Chunks.Overwrite;
    match m.patchAddr
    case Patch(cpu, at) =>
      ghost var was := b.out.parts;
      b.out.Rewrite(cpu, at, m.instrs, m.chunk);
      Chunks.ExtendsAt(b.out.parts, was, m.chunk, at);
      Chunks.ExtendsAt(b.out.parts, was, m.chunk, at + |m.instrs|);
    case NoPatch =>
      b.instrs := Chunks.Overwrite(b.instrs, m.patchPos, m.instrs);
  }

  // ----- Matches ------------------------------------------------------------------------------------

  class Match {
    const block: Block
    const caseBlock: Block
    const breakLabel: Label
    const nextCase: Label
    const subject: Reg
    const scratch: Reg
    const caseState: LsTracker
    const lsState: LsTracker
    var orig: LsTracker
    var defaultEmitted: bool

    constructor (subject: Reg, scratch: Reg, tracker: LsTracker)
      ensures this.subject == subject && this.scratch == scratch && orig == tracker && !defaultEmitted
      ensures lsState.now == IDLE
      ensures fresh(block) && fresh(caseBlock) && fresh(breakLabel) && fresh(nextCase) && fresh(caseState)
      ensures fresh(lsState)
      ensures block != caseBlock && breakLabel != nextCase && caseState != lsState
    {
      this.subject, this.scratch, orig, defaultEmitted := subject, scratch, tracker, false;
      block := new Block();
      caseBlock := new Block();
      breakLabel := new Label();
      nextCase := new Label();
      caseState := new LsTracker(IDLE);
      lsState := new LsTracker(IDLE);
    }
  }

  /** The parts of a match are different objects, and not those of the pending `if`. */
  ghost predicate Own(b: Builder, m: Match)
    reads b, b.pending, m
  {
    && m.block != m.caseBlock && m.block != b.pending.block && m.caseBlock != b.pending.block
    && m.breakLabel != m.nextCase && m.breakLabel != b.pending.endLabel && m.nextCase != b.pending.endLabel
    && m.caseState != m.lsState && m.caseState != b.pending.lsState && m.lsState != b.pending.lsState
    && m.orig != m.caseState && m.orig != m.lsState && m.orig != b.pending.lsState
  }

  /** The labels of a match are open: the branches out of finished cases lead to `finish`, the one out of
      the current test to `next`. */
  ghost predicate Waiting(b: Builder, m: Match, next: int, finish: int)
    reads b, b.pending, b.pending.endLabel, m, m.breakLabel, m.nextCase
  {
    && Own(b, m) && m.breakLabel.target == NO_POS && m.nextCase.target == NO_POS
    && Aimed(b, m.breakLabel, 0, finish) && Aimed(b, m.nextCase, 0, next)
    && Disjoint(m.nextCase.refs, m.breakLabel.refs)
  }

  method MatchStart(b: Builder, m: Match)
    requires b.Valid() && b.Calm() && Own(b, m) && m.orig == b.cur
    modifies b`instrs, b`stack, b.Closing(), m.block, m.breakLabel, m.nextCase
    ensures b.Valid() && !b.Active() && b.stack == m.block && m.block.next == old(b.Outer())
    ensures b.instrs == b.View() == old(b.View())
    ensures m.breakLabel.Clear() && m.nextCase.Clear()
  {
    hide Patch, Chained, AllNear;
    b.BlockStart(m.block);
    PatchNothing(b.instrs, |b.instrs|);
    m.breakLabel.Init();
    m.nextCase.Init();
  }

  /** The end of a case: leave the match, then let the test before the case lead here. */
  method CloseCase(b: Builder, m: Match, ghost finish: int, ghost start: int)
    requires b.Valid() && b.Outer() == m.caseBlock && m.caseBlock.next == m.block
    requires Waiting(b, m, |b.View()| + 1, finish) && b.cur == m.caseState && |b.View()| < finish
    requires Near(|b.View()|, finish)
    modifies b`instrs, b`stack, b.Closing(), b.cur, m.breakLabel, m.nextCase, m.lsState
    ensures b.Valid() && !b.Active() && b.stack == m.block && b.View() == b.instrs
    ensures m.nextCase.Clear() && m.breakLabel.target == NO_POS && Aimed(b, m.breakLabel, 0, finish)
    ensures m.breakLabel.refs == old(m.breakLabel.refs) + [|old(b.View())|]
    ensures Appended(b.instrs, Patch(old(b.View()), old(m.nextCase.refs), |old(b.View())| + 1),
                     [ToEnd(Always, 0, old(b.cur.now.loads))], start)
    ensures b.cur.now == old(b.cur.now) && m.lsState.now == Join(old(m.lsState.now), b.cur.now)
  {
    hide Patch, Chained, AllNear, Appended, Disjoint;
    ghost var s0, next, code := b.View(), m.nextCase, [ToEnd(Always, 0, b.cur.now.loads)];
    DisjointGrows(next.refs, next.lastForwardRef, s0, m.breakLabel.refs);
    ChainedBelow(s0, next.refs, next.lastForwardRef);
    BranchAway(b, m.breakLabel, finish, start);
    ghost var s1 := b.instrs;
    AppendedSize(s1, s0, code, start);
    ChainedAppended(s1, s0, code, start, next.refs, next.lastForwardRef);
    PatchInFront(s1, s0, code, start, next.refs, |s1|);
    ChainedPatched(s1, m.breakLabel.refs, m.breakLabel.lastForwardRef, next.refs, |s1|);
    b.BlockEnd(m.caseBlock);
    m.lsState.now := Ls(m.caseState.now.loads + m.lsState.now.loads, m.lsState.now.stores || m.caseState.now.stores);
    b.SetLabel(m.nextCase);
    PatchNothing(b.instrs, |b.instrs|);
    m.nextCase.Init();
  }

  /** The next case starts from the tracker the match was entered with. */
  method OpenCase(b: Builder, m: Match)
    requires b.Valid() && Own(b, m) && b.stack == m.block
    modifies b`instrs, b`stack, b`cur, m.caseBlock, m.caseState
    ensures b.Valid() && !b.Active() && b.stack == m.caseBlock && m.caseBlock.next == m.block
    ensures b.instrs == b.View() == old(b.instrs) && b.cur == m.caseState && m.caseState.now == m.orig.now
  {
    hide Patch, Chained, AllNear;
    m.caseState.now := m.orig.now;
    b.cur := m.caseState;
    PatchNothing(b.instrs, |b.instrs|);
    b.BlockStart(m.caseBlock);
    PatchNothing(b.instrs, |b.instrs|);
  }

  /** The test of a case: the subject against 0, or its difference to the id. */
  function Compare(ls: nat, v: Reg, scratch: Reg, id: Word, tr: Ls): Piece {
    if id == 0 then Branch32(ls, End, NEqual, v, tr)
    else
      var p := GenOp(ls, AddImm32(scratch, v, 0 - id), tr);
      Then(p, Branch32(ls, End, NEqual, scratch, p.tr))
  }

  /** The test of a case, with a branch to the next one. */
  method EmitTest(b: Builder, m: Match, id: Word, ghost next: int, ghost start: int)
    requires b.Valid() && Own(b, m) && b.stack == m.block && m.nextCase.Clear()
    requires Fit(b, Compare(b.lsSlot, m.subject, m.scratch, id, b.cur.now).code, start, next)
    modifies b`instrs, b`stack, b.Closing(), b.cur, m.nextCase
    ensures b.Valid() && !b.Active() && b.stack == m.block && b.View() == b.instrs
    ensures m.nextCase.target == NO_POS && Aimed(b, m.nextCase, 0, next)
    ensures Branched(b, m.nextCase, Compare(b.lsSlot, m.subject, m.scratch, id, old(b.cur.now)), old(b.View()), [],
                     start)
  {
    hide Patch, Chained, AllNear, Appended, InReach, Branch32, EndRefs, GenOp;
    ghost var ls, tr, s0 := b.lsSlot, b.cur.now, b.View();
    ChainedNone(s0, next);
    PatchNothing(b.instrs, |b.instrs|);
    if id != 0 {
      ghost var p := GenOp(ls, AddImm32(m.scratch, m.subject, 0 - id), tr);
      ghost var q := Branch32(ls, End, NEqual, m.scratch, p.tr);
      InReachConcat(p.code, q.code, |s0|, next, start);
      b.EmitOp(AddImm32(m.scratch, m.subject, 0 - id));
      PatchNothing(b.instrs, |b.instrs|);
      ghost var s1 := b.instrs;
      AppendedSize(s1, s0, p.code, start);
      ChainedNone(s1, next);
      BranchLabel32(b, m.nextCase, NEqual, m.scratch, start, next);
      AppendedTwice(s0, s1, b.instrs, p.code, q.code, start);
      EndRefsConcat(p.code, q.code, |s0|);
      OpHasNoEnds(ls, AddImm32(m.scratch, m.subject, 0 - id), tr, |s0|);
    } else {
      BranchLabel32(b, m.nextCase, NEqual, m.subject, start, next);
    }
  }

  /** The next case can be opened: as the first one, or behind another. */
  ghost predicate CaseReady(b: Builder, m: Match, finish: int)
    reads b, b.pending, b.pending.block, b.pending.endLabel, m, m.caseBlock, m.breakLabel, m.nextCase
  {
    && Own(b, m)
    && if m.nextCase.refs == [] then b.stack == m.block && b.cur == m.orig && m.breakLabel.Clear() && m.nextCase.Clear()
       else
         && b.Outer() == m.caseBlock && m.caseBlock.next == m.block && b.cur == m.caseState
         && Waiting(b, m, |b.View()| + 1, finish) && |b.View()| < finish && Near(|b.View()|, finish)
  }

  method MatchCase(b: Builder, m: Match, id: Word, ghost next: int, ghost finish: int,
                   ghost start: int) returns (ghost mid: seq<Instr>)
    requires b.Valid() && CaseReady(b, m, finish) && !m.defaultEmitted
    requires var at := if m.nextCase.refs == [] then |b.View()| else |b.View()| + 1;
             var code := Compare(b.lsSlot, m.subject, m.scratch, id, b.cur.now).code;
             at + |code| <= next && InReach(code, at, next, start)
    modifies b`instrs, b`stack, b`cur, b.Closing(), b.cur, m.caseBlock, m.caseState, m.lsState, m.breakLabel, m.nextCase
    ensures b.Valid() && !b.Active() && b.stack == m.caseBlock && m.caseBlock.next == m.block && b.View() == b.instrs
    ensures b.cur == m.caseState && m.caseState.now == m.orig.now
    ensures m.breakLabel.target == NO_POS && Aimed(b, m.breakLabel, 0, finish) && m.nextCase.target == NO_POS
    ensures Aimed(b, m.nextCase, 0, next)
    ensures if old(m.nextCase.refs) == [] then mid == old(b.View()) && m.breakLabel.refs == []
            && m.lsState.now == old(m.lsState.now)
            else
              && Appended(mid, Patch(old(b.View()), old(m.nextCase.refs), |old(b.View())| + 1),
                          [ToEnd(Always, 0, old(b.cur.now.loads))], start)
              && m.breakLabel.refs == old(m.breakLabel.refs) + [|old(b.View())|]
              && m.lsState.now == Join(old(m.lsState.now), old(b.cur.now))
    ensures var p := Compare(b.lsSlot, m.subject, m.scratch, id, old(b.cur.now));
            && Appended(b.instrs, mid, p.code, start) && m.nextCase.refs == EndRefs(p.code, |mid|)
            && m.orig.now == if old(m.nextCase.refs) == [] then p.tr else old(m.orig.now)
  {
    hide Patch, Chained, AllNear, Appended, InReach, EndRefs, Compare, Disjoint;
    ghost var p := Compare(b.lsSlot, m.subject, m.scratch, id, b.cur.now);
    PatchNothing(b.instrs, |b.instrs|);
    NoReference(m.nextCase, b.View());
    if m.nextCase.lastForwardRef != NO_POS {
      ghost var s0, refs, loads := b.View(), m.nextCase.refs, b.cur.now.loads;
      CloseCase(b, m, finish, start);
      AppendedSize(b.instrs, Patch(s0, refs, |s0| + 1), [ToEnd(Always, 0, loads)], start);
    } else {
      ChainedNone(b.instrs, finish);
    }
    mid := b.View();
    EmitTest(b, m, id, next, start);
    ghost var l := m.breakLabel;
    ChainedAppended(b.instrs, mid, p.code, start, l.refs, l.lastForwardRef);
    OpenCase(b, m);
  }

  lemma NoReference(lab: Label, instrs: seq<Instr>)
    requires lab.Clear() || Chained(instrs, lab.refs, lab.lastForwardRef)
    ensures lab.lastForwardRef == NO_POS <==> lab.refs == []
  {
  }

  method MatchDefault(b: Builder, m: Match, ghost finish: int, ghost start: int)
    requires b.Valid() && CaseReady(b, m, finish) && m.nextCase.refs != []
    modifies b`instrs, b`stack, b`cur, b.Closing(), b.cur, m`defaultEmitted, m.caseBlock, m.caseState, m.lsState,
             m.breakLabel, m.nextCase
    ensures b.Valid() && !b.Active() && b.stack == m.caseBlock && m.caseBlock.next == m.block && b.View() == b.instrs
    ensures b.cur == m.caseState && m.caseState.now == m.orig.now && m.defaultEmitted
    ensures m.breakLabel.target == NO_POS && Aimed(b, m.breakLabel, 0, finish) && m.nextCase.Clear()
    ensures Appended(b.instrs, Patch(old(b.View()), old(m.nextCase.refs), |old(b.View())| + 1),
                     [ToEnd(Always, 0, old(b.cur.now.loads))], start)
    ensures m.breakLabel.refs == old(m.breakLabel.refs) + [|old(b.View())|]
    ensures m.lsState.now == Join(old(m.lsState.now), old(b.cur.now)) && m.orig.now == old(m.orig.now)
  {
    hide Patch, Chained, AllNear, Appended, Disjoint;
    CloseCase(b, m, finish, start);
    OpenCase(b, m);
    m.defaultEmitted := true;
  }

  /** Both labels of a match lead behind it. */
  method SetLabels(b: Builder, m: Match)
    requires b.Valid() && !b.Active() && b.stack == m.block && Waiting(b, m, |b.instrs|, |b.instrs|)
    modifies b`instrs, m.breakLabel, m.nextCase
    ensures b.Valid() && !b.Active()
    ensures b.instrs == Patch(Patch(old(b.instrs), old(m.nextCase.refs), |old(b.instrs)|), old(m.breakLabel.refs),
                              |old(b.instrs)|)
  {
    hide Patch, Chained, AllNear, Disjoint;
    PatchNothing(b.instrs, |b.instrs|);
    ChainedPatched(b.instrs, m.breakLabel.refs, m.breakLabel.lastForwardRef, m.nextCase.refs, |b.instrs|);
    b.SetLabel(m.nextCase);
    b.SetLabel(m.breakLabel);
  }

  method Merge(b: Builder, m: Match)
    requires Own(b, m)
    modifies b`cur, m.orig
    ensures b.cur == m.orig
    ensures m.orig.now == if m.defaultEmitted then m.lsState.now else Join(old(m.orig.now), m.lsState.now)
  {
    if !m.defaultEmitted {
      m.orig.now := Ls(m.lsState.now.loads + m.orig.now.loads, m.orig.now.stores || m.lsState.now.stores);
    } else {
      m.orig.now := m.lsState.now;
    }
    b.cur := m.orig;
  }

  /** The last case ends. */
  method LastCase(b: Builder, m: Match)
    requires b.Valid() && !b.Active() && (b.stack == m.block || (b.stack == m.caseBlock && m.caseBlock.next == m.block))
    requires Waiting(b, m, |b.instrs|, |b.instrs|)
    modifies b`instrs, b`stack, m.lsState
    ensures b.instrs == old(b.instrs)
    ensures b.Valid() && !b.Active() && b.stack == m.block && Waiting(b, m, |b.instrs|, |b.instrs|)
    ensures m.lsState.now == if old(b.stack) == m.caseBlock then Join(old(m.lsState.now), m.caseState.now)
                             else old(m.lsState.now)
  {
    hide Patch, Chained, AllNear, Disjoint;
    PatchNothing(b.instrs, |b.instrs|);
    if b.stack == m.caseBlock {
      m.lsState.now := Ls(m.caseState.now.loads + m.lsState.now.loads, m.lsState.now.stores || m.caseState.now.stores);
      b.Leave(m.caseBlock);
    }
  }

  /** What may be in flight behind the match. */
  method MergeLast(b: Builder, m: Match)
    requires b.Valid() && !b.Active() && (b.stack == m.block || (b.stack == m.caseBlock && m.caseBlock.next == m.block))
    requires Waiting(b, m, |b.instrs|, |b.instrs|)
    modifies b`instrs, b`stack, b`cur, m.lsState, m.orig
    ensures b.Valid() && !b.Active() && b.stack == m.block && Waiting(b, m, |b.instrs|, |b.instrs|)
    ensures b.instrs == old(b.instrs) && b.cur == m.orig
    ensures var all := if old(b.stack) == m.caseBlock then Join(old(m.lsState.now), m.caseState.now)
            else old(m.lsState.now);
            m.orig.now == if m.defaultEmitted then all else Join(old(m.orig.now), all)
  {
    hide Patch, Chained, AllNear, Disjoint;
    LastCase(b, m);
    Merge(b, m);
  }

  /** All that still waits for the end of the match is led there, and its block ends. */
  method SetAllAndLeave(b: Builder, m: Match)
    requires b.Valid() && !b.Active() && b.stack == m.block && Waiting(b, m, |b.instrs|, |b.instrs|)
    requires m.block.next != b.pending.block && (m.block.next == null ==> b.Closable(b.instrs))
    modifies b`instrs, b`stack, m.breakLabel, m.nextCase, Flushed(b, m.block)
    ensures b.Valid() && !b.Active() && b.stack == m.block.next && b.cur == old(b.cur)
    ensures var n := |old(b.instrs)|;
            var whole := Patch(Patch(old(b.instrs), old(m.nextCase.refs), n), old(m.breakLabel.refs), n);
            if m.block.next != null then b.View() == b.instrs == whole
            else b.Sent(whole, old(b.pendingMaybes), old(b.Sending()))
  {
    hide Patch, Chained, AllNear, Disjoint, Builder.Sent, Builder.Sending, Builder.Closable;
    if m.block.next == null {
      b.StillClosable(b.instrs, m.nextCase.refs);
      b.StillClosable(Patch(b.instrs, m.nextCase.refs, |b.instrs|), m.breakLabel.refs);
    }
    SetLabels(b, m);
    PatchNothing(b.instrs, |b.instrs|);
    b.Leave(m.block);
  }

  /** The last case ends; without a default the match may also fall through from the last test. */
  method MatchEnd(b: Builder, m: Match)
    requires b.Valid() && !b.Active() && (b.stack == m.block || (b.stack == m.caseBlock && m.caseBlock.next == m.block))
    requires Waiting(b, m, |b.instrs|, |b.instrs|) && m.block.next != b.pending.block
    requires m.block.next == null ==> b.Closable(b.instrs)
    modifies b`instrs, b`stack, b`cur, m.breakLabel, m.nextCase, m.lsState, m.orig, Flushed(b, m.block)
    ensures b.Valid() && !b.Active() && b.stack == m.block.next && b.cur == m.orig
    ensures var n := |old(b.instrs)|;
            var whole := Patch(Patch(old(b.instrs), old(m.nextCase.refs), n), old(m.breakLabel.refs), n);
            if m.block.next != null then b.View() == b.instrs == whole
            else b.Sent(whole, old(b.pendingMaybes), old(b.Sending()))
    ensures var all := if old(b.stack) == m.caseBlock then Join(old(m.lsState.now), m.caseState.now)
            else old(m.lsState.now);
            m.orig.now == if m.defaultEmitted then all else Join(old(m.orig.now), all)
  {
    hide Patch, Chained, AllNear, Disjoint, Builder.Sent, Builder.Sending, Builder.Closable;
    hide Waiting, Builder.View, Builder.Valid;
    MergeLast(b, m);
    SetAllAndLeave(b, m);
  }
}
