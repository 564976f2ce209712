/**
 Control flow on top of the builder: branches to labels, conditionals, loops, matches and maybe blocks.
 Everything here runs inside an open block; what it emits is described by the pieces of `Structured`.
 */
module Control {
  import opened Isa
  import opened Structured
  import opened Labels
  import opened B = Builder
  import Chunks

  /** Branches to `lab` can be emitted: it is set, at `start`, or its references are linked through the
      block and in reach of `end`. */
  ghost predicate Aimed(b: Builder, lab: Label, start: int, end: int)
    reads b, b.pending, b.pending.endLabel, lab
  {
    && lab != b.pending.endLabel
    && if lab.target == NO_POS then Chained(b.View(), lab.refs, lab.lastForwardRef) && AllNear(lab.refs, end)
       else lab.target == start
  }

  function TargetOf(lab: Label): Target
    reads lab
  {
    if lab.target == NO_POS then End else Start
  }

  /** A piece of code fits between where the block ends now and `end`, and its branches can be encoded. */
  ghost predicate Fit(b: Builder, code: seq<Item>, start: int, end: int)
    reads b, b.pending, b.pending.endLabel
  {
    |b.View()| + |code| <= end && InReach(code, |b.View()|, end, start)
  }

  /** What one or more branches to `lab` leave behind: the code `q` behind what there was, the tracker
      it asks for, and the references it adds to the label. */
  ghost predicate Branched(b: Builder, lab: Label, q: Piece, before: seq<Instr>, refs: seq<nat>, start: int)
    reads b, b.cur, lab
  {
    && b.cur.now == q.tr && |b.instrs| == |before| + |q.code| && Appended(b.instrs, before, q.code, start)
    && lab.refs == refs + EndRefs(q.code, |before|)
  }

  /** A branch to a label that is not set yet is linked to the one before it; a branch back is final. */
  method BranchLabel32(b: Builder, lab: Label, cond: Cond, v: Reg, ghost start: int, ghost end: int)
    requires b.Valid() && b.Outer() != null && Aimed(b, lab, start, end)
    requires Fit(b, Branch32(b.lsSlot, TargetOf(lab), cond, v, b.cur.now).code, start, end)
    modifies b`instrs, b`stack, b.Closing(), b.cur, lab
    ensures b.Valid() && !b.Active() && b.stack == old(b.Outer()) && b.View() == b.instrs
    ensures lab.target == old(lab.target) && Aimed(b, lab, start, end)
    ensures Branched(b, lab, Branch32(b.lsSlot, old(TargetOf(lab)), cond, v, old(b.cur.now)), old(b.View()),
                     old(lab.refs), start)
  {
    hide Patch, Chained, AllNear, InReach, WaitIf, EndRefs, Appended;
    ghost var before, tr := b.View(), b.cur.now;
    if cond != Always { b.FlushLoadTo({v}); }
    ghost var mid := b.View();
    assert {v} * tr.loads != {} <==> v in tr.loads by { assert v in tr.loads ==> v in {v} * tr.loads; }
    assert mid == before + (if cond != Always && v in tr.loads then [Wait({b.lsSlot})]
                            else []) by { PatchNothing(b.instrs, |b.instrs|); }
    Waited(before, mid, b.lsSlot, cond != Always && v in tr.loads, tr, start);
    var r := TestReg(cond, v);
    if lab.target == NO_POS {
      BranchForward(before, mid, b.lsSlot, cond, v, tr, lab.refs, lab.lastForwardRef, start, end);
      var pos := |b.instrs|;
      var offset := -1;
      if lab.lastForwardRef != NO_POS {
        Linkable(lab.refs, lab.lastForwardRef, before, pos, end);
        assert pos - lab.lastForwardRef <= INT16_MAX;
        offset := pos - lab.lastForwardRef;
      }
      b.Emit(Branch(offset, cond, r));
      lab.lastForwardRef, lab.refs := pos, lab.refs + EndRefs(Branch32(b.lsSlot, End, cond, v, tr).code, |before|);
    } else {
      BranchBack(before, mid, b.lsSlot, cond, v, tr, start, end);
      var offset := lab.target - |b.instrs| - 1;
      assert offset >= INT16_MIN;
      b.Emit(Branch(offset, cond, r));
    }
    PatchNothing(b.instrs, |b.instrs|);
  }

  /** The same, once `skip` is set where the block ends. */
  ghost predicate Skipping(b: Builder, lab: Label, skip: Label, q: Piece, before: seq<Instr>, refs: seq<nat>,
                           start: int)
    reads b, b.cur, lab, skip
  {
    && skip.Open(b.instrs) && AllNear(skip.refs, |b.instrs|) && (lab.target == NO_POS ==> Disjoint(skip.refs, lab.refs))
    && b.cur.now == q.tr && Appended(Patch(b.instrs, skip.refs, |b.instrs|), before, q.code, start)
    && lab.refs == refs + EndRefs(q.code, |before|)
  }

  /** A branch that another one skips. */
  method BranchUnless(b: Builder, lab: Label, skip: Label, unless: Cond, u: Reg, cond: Cond, v: Reg, ghost start: int,
                      ghost end: int)
    requires b.Valid() && b.Outer() != null && Aimed(b, lab, start, end) && skip != lab && skip != b.pending.endLabel
    requires skip.Clear()
    requires Fit(b, Over(b.lsSlot, unless, u, b.cur.now,
                         Branch32(b.lsSlot, TargetOf(lab), cond, v, Tested(b.lsSlot, unless, u, b.cur.now))).code,
                             start, end)
    modifies b`instrs, b`stack, b.Closing(), b.cur, lab, skip
    ensures b.Valid() && !b.Active() && b.stack == old(b.Outer())
    ensures lab.target == old(lab.target) && Aimed(b, lab, start, end)
    ensures var t1 := Tested(b.lsSlot, unless, u, old(b.cur.now));
            Skipping(b, lab, skip, Over(b.lsSlot, unless, u, old(b.cur.now),
                                        Branch32(b.lsSlot, old(TargetOf(lab)), cond, v, t1)),
                     old(b.View()), old(lab.refs), start)
  {
    hide Patch, Chained, AllNear, InReach, EndRefs, Appended, Branch32, Disjoint, Tested;
    ghost var ls, t, tr, s0, n0 := b.lsSlot, TargetOf(lab), b.cur.now, b.View(), |b.View()|;
    ghost var m, z := Branch32(ls, End, unless, u, tr).code, Branch32(ls, t, cond, v, Tested(ls, unless, u, tr));
    ghost var lowRefs := if lab.target == NO_POS then lab.refs else [];
    if lab.target == NO_POS { ChainedBelow(s0, lab.refs, lab.lastForwardRef); }
    TestedAny(ls, End, unless, u, tr);
    SkipInReach(ls, unless, u, tr, z, n0, end, start);
    ghost var stop := n0 + |m| + |z.code|;
    ChainedNone(s0, stop);
    BranchLabel32(b, skip, unless, u, start, stop);
    ghost var s1 := b.instrs;
    if lab.target == NO_POS { ChainedAppended(s1, s0, m, start, lab.refs, lab.lastForwardRef); }
    BranchLabel32(b, lab, cond, v, start, end);
    ghost var s2 := b.instrs;
    ChainedAppended(s2, s1, z.code, start, skip.refs, skip.lastForwardRef);
    SkipSet(s0, s1, s2, ls, unless, u, tr, z, start);
    SkipRefs(ls, unless, u, tr, z, n0);
    assert skip.refs == EndRefs(m, n0);
    DisjointStretches(lowRefs, m, z.code, n0);
  }

  /** hi < 0, or hi == 0 and lo == 0. */
  method BranchLEqual(b: Builder, lab: Label, skip: Label, v: Reg, ghost start: int, ghost end: int)
    requires b.Valid() && b.Outer() != null && Aimed(b, lab, start, end) && skip != lab && skip != b.pending.endLabel
    requires skip.Clear()
    requires Fit(b, Branch64(b.lsSlot, TargetOf(lab), LEqual, v, b.cur.now).code, start, end)
    modifies b`instrs, b`stack, b.Closing(), b.cur, lab, skip
    ensures b.Valid() && !b.Active() && b.stack == old(b.Outer())
    ensures lab.target == old(lab.target) && Aimed(b, lab, start, end)
    ensures Skipping(b, lab, skip, Branch64(b.lsSlot, old(TargetOf(lab)), LEqual, v, old(b.cur.now)), old(b.View()),
                     old(lab.refs), start)
  {
    hide Patch, Chained, AllNear, InReach, EndRefs, Appended, Branch32, Disjoint, Tested, Over;
    ghost var ls, t, tr, s0, n0 := b.lsSlot, TargetOf(lab), b.cur.now, b.View(), |b.View()|;
    ghost var t1 := Tested(ls, Less, v + 1, tr);
    ghost var a := Branch32(ls, t, Less, v + 1, tr).code;
    ghost var over := Over(ls, NEqual, v + 1, t1, Branch32(ls, t, Equal, v, Tested(ls, NEqual, v + 1, t1)));
    TestedAny(ls, t, Less, v + 1, tr);
    assert Branch64(ls, t, LEqual, v, tr) == Piece(a + over.code, over.tr);
    InReachConcat(a, over.code, n0, end, start);
    BranchLabel32(b, lab, Less, v + 1, start, end);
    ghost var s1 := b.instrs;
    BranchUnless(b, lab, skip, NEqual, v + 1, Equal, v, start, end);
    AppendedTwice(s0, s1, Patch(b.instrs, skip.refs, |b.instrs|), a, over.code, start);
    EndRefsConcat(a, over.code, n0);
  }

  /** Two branches to the same label. */
  method BranchEither(b: Builder, lab: Label, cond: Cond, u: Reg, v: Reg, ghost start: int, ghost end: int)
    requires b.Valid() && b.Outer() != null && Aimed(b, lab, start, end)
    requires Fit(b, Either(b.lsSlot, TargetOf(lab), cond, u, v, b.cur.now).code, start, end)
    modifies b`instrs, b`stack, b.Closing(), b.cur, lab
    ensures b.Valid() && !b.Active() && b.stack == old(b.Outer()) && b.View() == b.instrs
    ensures lab.target == old(lab.target) && Aimed(b, lab, start, end)
    ensures Branched(b, lab, Either(b.lsSlot, old(TargetOf(lab)), cond, u, v, old(b.cur.now)), old(b.View()),
                     old(lab.refs), start)
  {
    hide Patch, Chained, AllNear, InReach, EndRefs, Appended, Branch32, Tested;
    ghost var ls, t, tr, s0, n0 := b.lsSlot, TargetOf(lab), b.cur.now, b.View(), |b.View()|;
    ghost var y, z := Branch32(ls, t, cond, u, tr).code, Branch32(ls, t, cond, v, Tested(ls, cond, u, tr)).code;
    TestedAny(ls, t, cond, u, tr);
    InReachConcat(y, z, n0, end, start);
    BranchLabel32(b, lab, cond, u, start, end);
    ghost var s1 := b.instrs;
    BranchLabel32(b, lab, cond, v, start, end);
    AppendedTwice(s0, s1, b.instrs, y, z, start);
    EndRefsConcat(y, z, n0);
  }

  function Either(ls: nat, t: Target, cond: Cond, u: Reg, v: Reg, tr: Ls): Piece {
    Then(Branch32(ls, t, cond, u, tr), Branch32(ls, t, cond, v, Tested(ls, cond, u, tr)))
  }

  /** hi >= 0, and hi != 0 or lo != 0. */
  method BranchGreater(b: Builder, lab: Label, skip: Label, v: Reg, ghost start: int, ghost end: int)
    requires b.Valid() && b.Outer() != null && Aimed(b, lab, start, end) && skip != lab && skip != b.pending.endLabel
    requires skip.Clear()
    requires Fit(b, Branch64(b.lsSlot, TargetOf(lab), Greater, v, b.cur.now).code, start, end)
    modifies b`instrs, b`stack, b.Closing(), b.cur, lab, skip
    ensures b.Valid() && !b.Active() && b.stack == old(b.Outer())
    ensures lab.target == old(lab.target) && Aimed(b, lab, start, end)
    ensures Skipping(b, lab, skip, Branch64(b.lsSlot, old(TargetOf(lab)), Greater, v, old(b.cur.now)), old(b.View()),
                     old(lab.refs), start)
  {
    hide Patch, Chained, AllNear, InReach, EndRefs, Appended, Branch32, Disjoint, Tested;
    ghost var ls, t, tr, s0, n0 := b.lsSlot, TargetOf(lab), b.cur.now, b.View(), |b.View()|;
    ghost var m := Branch32(ls, End, Less, v + 1, tr).code;
    ghost var over := Either(ls, t, NEqual, v + 1, v, Tested(ls, Less, v + 1, tr));
    assert Branch64(ls, t, Greater, v, tr) == Over(ls, Less, v + 1, tr, over);
    hide Either, Branch64;
    ghost var lowRefs := if lab.target == NO_POS then lab.refs else [];
    if lab.target == NO_POS { ChainedBelow(s0, lab.refs, lab.lastForwardRef); }
    TestedAny(ls, End, Less, v + 1, tr);
    SkipInReach(ls, Less, v + 1, tr, over, n0, end, start);
    ghost var stop := n0 + |m| + |over.code|;
    ChainedNone(s0, stop);
    BranchLabel32(b, skip, Less, v + 1, start, stop);
    ghost var s1 := b.instrs;
    if lab.target == NO_POS { ChainedAppended(s1, s0, m, start, lab.refs, lab.lastForwardRef); }
    BranchEither(b, lab, NEqual, v + 1, v, start, end);
    ghost var s2 := b.instrs;
    ChainedAppended(s2, s1, over.code, start, skip.refs, skip.lastForwardRef);
    SkipSet(s0, s1, s2, ls, Less, v + 1, tr, over, start);
    SkipRefs(ls, Less, v + 1, tr, over, n0);
    assert skip.refs == EndRefs(m, n0);
    DisjointStretches(lowRefs, m, over.code, n0);
  }

  /** A label without references changes nothing when it is set. */
  lemma SkippingNothing(b: Builder, lab: Label, skip: Label, q: Piece, before: seq<Instr>, refs: seq<nat>, start: int)
    requires Branched(b, lab, q, before, refs, start) && skip.Clear()
    ensures Skipping(b, lab, skip, q, before, refs, start)
  {
    PatchNothing(b.instrs, |b.instrs|);
  }

  /** The conditions decided by 32-bit branches to the label alone. */
  method BranchPlain(b: Builder, lab: Label, skip: Label, cond: Cond, v: Reg, ghost start: int, ghost end: int)
    requires cond in {Always, Less, NEqual}
    requires b.Valid() && b.Outer() != null && Aimed(b, lab, start, end) && skip != lab && skip != b.pending.endLabel
    requires skip.Clear()
    requires Fit(b, Branch64(b.lsSlot, TargetOf(lab), cond, v, b.cur.now).code, start, end)
    modifies b`instrs, b`stack, b.Closing(), b.cur, lab
    ensures b.Valid() && !b.Active() && b.stack == old(b.Outer())
    ensures lab.target == old(lab.target) && Aimed(b, lab, start, end)
    ensures Skipping(b, lab, skip, Branch64(b.lsSlot, old(TargetOf(lab)), cond, v, old(b.cur.now)), old(b.View()),
                     old(lab.refs), start)
  {
    hide Patch, Chained, AllNear, InReach, EndRefs, Appended, Branch32, Disjoint, Tested;
    ghost var q, s0, refs := Branch64(b.lsSlot, TargetOf(lab), cond, v, b.cur.now), b.View(), lab.refs;
    if cond == Always {
      BranchLabel32(b, lab, Always, 0, start, end);
    } else if cond == Less {
      BranchLabel32(b, lab, Less, v + 1, start, end);
    } else {
      BranchEither(b, lab, NEqual, v, v + 1, start, end);
    }
    SkippingNothing(b, lab, skip, q, s0, refs, start);
  }

  /** Signed 64-bit conditions, out of branches on the halves. */
  method BranchLabel64(b: Builder, lab: Label, cond: Cond, v: Reg, ghost start: int, ghost end: int)
    requires b.Valid() && b.Outer() != null && Aimed(b, lab, start, end)
    requires Fit(b, Branch64(b.lsSlot, TargetOf(lab), cond, v, b.cur.now).code, start, end)
    modifies b`instrs, b`stack, b.Closing(), b.cur, lab
    ensures b.Valid() && !b.Active() && b.stack == old(b.Outer()) && b.View() == b.instrs
    ensures lab.target == old(lab.target) && Aimed(b, lab, start, end)
    ensures Branched(b, lab, Branch64(b.lsSlot, old(TargetOf(lab)), cond, v, old(b.cur.now)), old(b.View()),
                     old(lab.refs), start)
  {
    hide Patch, Chained, AllNear, InReach, EndRefs, Appended, Branch32, Disjoint, Tested, Over;
    var skip := new Label();
    var lo, hi := v, v + 1;
    match cond {
      case Always => BranchPlain(b, lab, skip, cond, v, start, end);
      case Less => BranchPlain(b, lab, skip, cond, v, start, end);
      case NEqual => BranchPlain(b, lab, skip, cond, v, start, end);
      case LEqual => BranchLEqual(b, lab, skip, v, start, end);
      case Greater => BranchGreater(b, lab, skip, v, start, end);
      case GEqual => BranchUnless(b, lab, skip, Less, hi, Always, 0, start, end);
      case Equal => BranchUnless(b, lab, skip, NEqual, lo, Equal, hi, start, end);
    }
    hide Branch64;
    PatchNothing(b.instrs, |b.instrs|);
    if lab.target == NO_POS { ChainedPatched(b.instrs, lab.refs, lab.lastForwardRef, skip.refs, |b.instrs|); }
    ghost var q, s0 := Branch64(b.lsSlot, old(TargetOf(lab)), cond, v, old(b.cur.now)), old(b.View());
    AppendedSize(Patch(b.instrs, skip.refs, |b.instrs|), s0, q.code, start);
    b.SetLabel(skip);
    PatchNothing(b.instrs, |b.instrs|);
  }

  method BranchLabel(b: Builder, lab: Label, cond: Cond, val: Val, ghost start: int, ghost end: int)
    requires b.Valid() && b.Outer() != null && Aimed(b, lab, start, end)
    requires Fit(b, GenBranch(b.lsSlot, TargetOf(lab), cond, val, b.cur.now).code, start, end)
    modifies b`instrs, b`stack, b.Closing(), b.cur, lab
    ensures b.Valid() && !b.Active() && b.stack == old(b.Outer()) && b.View() == b.instrs
    ensures lab.target == old(lab.target) && Aimed(b, lab, start, end)
    ensures Branched(b, lab, GenBranch(b.lsSlot, old(TargetOf(lab)), cond, val, old(b.cur.now)), old(b.View()),
                     old(lab.refs), start)
  {
    hide Patch, Chained, AllNear, InReach, EndRefs, Appended, Branch32, Branch64;
    if val.wide {
      BranchLabel64(b, lab, cond, val.reg, start, end);
    } else {
      BranchLabel32(b, lab, cond, val.reg, start, end);
    }
  }

  /** An unconditional branch to a label that is still to be set; it waits for nothing. */
  method BranchAway(b: Builder, lab: Label, ghost end: int, ghost start: int)
    requires b.Valid() && b.Outer() != null && Aimed(b, lab, start, end) && lab.target == NO_POS
    requires |b.View()| < end && Near(|b.View()|, end)
    modifies b`instrs, b`stack, b.Closing(), b.cur, lab
    ensures b.Valid() && !b.Active() && b.stack == old(b.Outer()) && b.View() == b.instrs
    ensures lab.target == NO_POS && Aimed(b, lab, start, end) && lab.refs == old(lab.refs) + [|old(b.View())|]
    ensures b.cur.now == old(b.cur.now)
    ensures Appended(b.instrs, old(b.View()), [ToEnd(Always, 0, old(b.cur.now.loads))], start)
  {
    hide Patch, Chained, AllNear, InReach, EndRefs, Appended, GenBranch;
    AwayIs(b.lsSlot, b.cur.now, |b.View()|, end, start);
    BranchLabel(b, lab, Always, Val(0, false), start, end);
  }

  // ----- LOAD_IP ------------------------------------------------------------------------------------

  /** Inside a block the address is not known yet: the MOVE48 is linked to the one before it. */
  method LoadIpTo(b: Builder, dest: Reg)
    requires b.Valid() && b.Outer() != null && IpChained(b.View(), b.ips, b.lastLoadIpTarget)
    modifies b`instrs, b`stack, b`lastLoadIpTarget, b`ips, b.Closing(), b.cur
    ensures b.Valid() && !b.Active() && b.stack == old(b.Outer())
    ensures IpChained(b.View(), b.ips, b.lastLoadIpTarget) && b.ips == old(b.ips) + [|b.View()|]
    ensures var p := GenOp(b.lsSlot, Move48(dest, old(b.lastLoadIpTarget)), old(b.cur.now));
            b.cur.now == p.tr && forall start :: Appended(b.View(), old(b.View()), p.code, start)
  {
    hide Patch, Appended, IpChained, Clash, WaitIf;
    ghost var before := b.View();
    var last := b.lastLoadIpTarget;
    b.FlushPendingIf();
    PatchNothing(b.instrs, |b.instrs|);
    assert b.View() == before;
    b.EmitOp(Move48(dest, last));
    assert Appended(b.instrs, before, GenOp(b.lsSlot, Move48(dest, last), old(b.cur.now)).code, 0);
    PatchNothing(b.instrs, |b.instrs|);
    ghost var tr := old(b.cur.now);
    ghost var w := WaitIf(b.lsSlot, Clash(Move48(dest, last), tr.loads), tr);
    assert GenOp(b.lsSlot, Move48(dest, last), tr).code == w.code + [Item.Emit(Move48(dest, last), w.tr.loads)];
    LastItem(b.instrs, before, w.code, Move48(dest, last), w.tr.loads, 0);
    AppendedPrefix(b.instrs, before, w.code + [Item.Emit(Move48(dest, last), w.tr.loads)], 0);
    IpGrows(before, b.instrs, b.ips, last, dest);
    b.lastLoadIpTarget, b.ips := |b.instrs|, b.ips + [|b.instrs|];
  }

  lemma IpGrows(before: seq<Instr>, now: seq<Instr>, ips: seq<nat>, last: nat, dest: Reg)
    requires IpChained(before, ips, last) && |before| < |now| && now[|now| - 1] == Move48(dest, last)
    requires now[..|before|] == before
    ensures IpChained(now, ips + [|now|], |now|)
  {
    hide IpBefore;
    var all := ips + [|now|];
    forall k | 0 <= k < |all|
      ensures 0 < all[k] <= |now| && now[all[k] - 1].Move48? && now[all[k] - 1].imm48 == IpBefore(all, k)
      ensures forall j :: 0 <= j < k ==> all[j] < all[k]
    {
      IpGrowsAt(before, now, ips, last, dest, k);
    }
  }

  lemma IpGrowsAt(before: seq<Instr>, now: seq<Instr>, ips: seq<nat>, last: nat, dest: Reg, k: nat)
    requires IpChained(before, ips, last) && |before| < |now| && now[|now| - 1] == Move48(dest, last)
    requires now[..|before|] == before && k <= |ips|
    ensures var all := ips + [|now|];
            && 0 < all[k] <= |now| && now[all[k] - 1].Move48? && now[all[k] - 1].imm48 == IpBefore(all, k)
            && forall j :: 0 <= j < k ==> all[j] < all[k]
  {
    var all := ips + [|now|];
    if k < |ips| {
      assert now[..|before|][ips[k] - 1] == now[ips[k] - 1];
      assert IpBefore(all, k) == IpBefore(ips, k);
    }
  }

  lemma LastItem(now: seq<Instr>, before: seq<Instr>, code: seq<Item>, i: Instr, loads: set<Reg>, start: int)
    requires Appended(now, before, code + [Item.Emit(i, loads)], start)
    ensures |before| < |now| && now[|now| - 1] == i
  {
    assert Matches(now[|before| + |code|], (code + [Item.Emit(i, loads)])[|code|], |before| + |code|, start);
  }

  /** Once a block is in place, every LOAD_IP in it holds the address of the slot behind itself, and
      nothing else has changed. */
  lemma IpsExact(instrs: seq<Instr>, ips: seq<nat>, last: nat, gpu: nat, at: nat, i: nat)
    requires IpChained(instrs, ips, last) && i < |instrs|
    ensures var w := WithIps(instrs, ips, gpu, at);
            if i + 1 in ips then w[i].Move48? && w[i].imm48 == gpu + (at + i + 1) * 8 && w[i].dst == instrs[i].dst
            else w[i] == instrs[i]
  {
  }

  /** Outside any block the address is computed before the MOVE48 is emitted. It is that of the slot behind
      the MOVE48 exactly when no load to the destination was in flight: otherwise the WAIT in front of
      the MOVE48 has already taken a slot. */
  method LoadIpToStream(b: Builder, dest: Reg) returns (ghost ip: nat)
    requires b.Valid() && b.stack == null && b.out.Valid() && (b.out.allocates ==> 2 <= b.out.largest)
    modifies b.cur, b.out, b.out.buffers
    ensures b.out.Valid() && (old(b.out.invalid) ==> b.out.invalid)
    ensures b.out.invalid <==> Chunks.Reserved(old(b.out.SpaceLeft()), 2).Full?
    ensures var wait := Pair(dest) * old(b.cur.now.loads) != {};
            !b.out.invalid ==>
              && b.out.Stream() == old(b.out.Stream()) + (if wait then [Wait({b.lsSlot})] else []) + [Move48(dest, ip)]
              && b.out.cur.buffer.Buffer? && (ip == b.out.cur.buffer.gpu + b.out.cur.pos * 8 <==> !wait)
              && (!wait ==> b.out.Room(1))
              && b.cur.now == if wait then IDLE else old(b.cur.now)
  {
    hide Chunks.CommandStream.Valid, Chunks.Flatten, Chunks.Extends, Chunks.Linked;
    ghost var s := b.out.Stream();
    var ok := b.out.Reserve(2);
    ip := 0;
    if !ok { return; }
    var addr := b.out.cur.buffer.gpu + 8 * (b.out.cur.pos + 1);
    ip := addr;
    if Pair(dest) * b.cur.now.loads != {} {
      ok := b.out.Append(Wait({b.lsSlot}));
      b.cur.now := IDLE;
    }
    ok := b.out.Append(Move48(dest, addr));
  }
}
