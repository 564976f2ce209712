/**
 A client of the builder: it walks a structured program and makes the calls the macros make. The block it
 leaves behind is the code of the program.
 */
module Driver {
  import opened Isa
  import opened Structured
  import opened Labels
  import opened B = Builder
  import opened Control
  import opened Constructs
  import opened Handles
  import Chunks
  import Tidy

  // ----- Reach --------------------------------------------------------------------------------------

  /** Every branch emitted for `s` at `at` fits its 16-bit offset, those of maybe blocks included. */
  ghost predicate Fits(ls: nat, s: Stmt, g: Ctx, head: Ls, at: int, end: int, start: int)
    decreases s
  {
    match s
    case Seq(a, b) =>
      var x := Gen(ls, a, g, head);
      Fits(ls, a, g, head, at, end, start) && Fits(ls, b, x.ctx, head, at + |x.code|, end, start)
    case If(cond, v, t) =>
      var p := GenBranch(ls, End, Invert(cond), v, g.tr);
      var g1 := Ctx(p.tr, g.ifLs, false);
      var stop := at + |p.code| + |Gen(ls, t, g1, head).code|;
      InReach(p.code, at, stop, at) && Fits(ls, t, g1, head, at + |p.code|, end, start)
    case IfElse(cond, v, t, e) =>
      var p := GenBranch(ls, End, Invert(cond), v, g.tr);
      var g1 := Ctx(p.tr, g.ifLs, false);
      var x := Gen(ls, t, g1, head);
      var mid := at + |p.code| + |x.code|;
      var y := Gen(ls, e, ElseCtx(p, x), head);
      && InReach(p.code, at, mid + 1, at) && Fits(ls, t, g1, head, at + |p.code|, end, start)
      && Near(mid, mid + 1 + |y.code|) && Fits(ls, e, ElseCtx(p, x), head, mid + 1, end, start)
    case While(cond, v, body) =>
      var p := Entry(ls, cond, v, g.tr);
      var g1 := Ctx(p.tr, g.ifLs, false);
      var x := Gen(ls, body, g1, p.tr);
      var q := Again(ls, cond, v, p.tr, x.ctx.tr);
      var top := at + |p.code|;
      var stop := top + |x.code| + |q.code|;
      && InReach(p.code, at, stop, top) && Fits(ls, body, g1, p.tr, top, stop, top)
      && InReach(q.code, top + |x.code|, stop, top)
    case BreakIf(cond, v) => InReach(GenBranch(ls, End, cond, v, g.tr).code, at, end, start)
    case ContinueIf(cond, v) => InReach(Again(ls, cond, v, head, g.tr).code, at, end, start)
    case Match(v, scratch, cs) =>
      var y := GenCases(ls, v, scratch, cs, true, g.tr, IDLE, g.(pend := false), head);
      FitsCases(ls, v, scratch, cs, true, g.tr, IDLE, g.(pend := false), head, at, at + |y.code|, end, start)
    case Maybe(_, body) => Fits(ls, body, g.(pend := false), head, at, end, start)
    case _ => true
  }

  /** `finish` is the end of the match. */
  ghost predicate FitsCases(ls: nat, v: Reg, scratch: Reg, cs: Cases, first: bool, orig: Ls, acc: Ls, g: Ctx, head: Ls,
                            at: int, finish: int, end: int, start: int)
    decreases cs
  {
    match cs
    case NoCase => true
    case Default(body) => Fits(ls, body, Ctx(orig, g.ifLs, false), head, at, end, start)
    case Case(id, body, rest) =>
      var p := Compare(ls, v, scratch, id, g.tr);
      var orig' := if first then p.tr else orig;
      var g1 := Ctx(orig', g.ifLs, false);
      var x := Gen(ls, body, g1, head);
      var more := if rest.NoCase? then 0 else 1;
      var mid := at + |p.code| + |x.code|;
      && InReach(p.code, at, mid + more, start) && Fits(ls, body, g1, head, at + |p.code|, end, start)
      && (!rest.NoCase? ==> Near(mid, finish))
      && FitsCases(ls, v, scratch, rest, false, orig', Join(acc, x.ctx.tr), x.ctx, head, mid + more, finish, end, start)
  }

  // ----- The state between statements -----------------------------------------------------------------

  /** A statement that comes out as `o` can be emitted. `lp` is the loop around it; outside any loop it is
      storage nothing refers to. */
  ghost predicate Ready(b: Builder, lp: Loop, o: Out, end: int)
    reads b, b.pending, b.pending.block, b.pending.endLabel, lp, lp.start, lp.end
  {
    b.Outer() != null && Openable(b, lp, o, end)
  }

  /** Constructs can also be the outermost block themselves. */
  ghost predicate Openable(b: Builder, lp: Loop, o: Out, end: int)
    reads b, b.pending, b.pending.block, b.pending.endLabel, lp, lp.start, lp.end
  {
    && b.Valid() && b.Calm() && Inside(b, lp, end) && lp.orig != b.cur
    && o.ok && |b.View()| + |o.code| <= end
  }

  lemma ReadyOpens(b: Builder, lp: Loop, o: Out, end: int)
    requires Ready(b, lp, o, end)
    ensures Openable(b, lp, o, end)
  {
  }

  /** The statement has come out as `o`, behind the code `before`; `refs` were the references to the end
      of the loop, `div` what was in flight at its breaks and continues, and `active` the references of
      the pending `if`. */
  ghost predicate Emitted'(b: Builder, lp: Loop, o: Out, before: seq<Instr>, refs: seq<nat>, div: Ls, active: seq<nat>)
    reads b, b.cur, b.pending, b.pending.block, b.pending.endLabel, b.pending.lsState, lp, lp.start, lp.end, lp.orig
  {
    && b.Valid() && b.Ctx() == o.ctx && Appended(b.View(), before, o.code, lp.start.target)
    && lp.end.refs == refs + EndRefs(o.code, |before|)
    && lp.orig != null && lp.orig.now == Join(div, o.div)
    && Later(b.ActiveRefs(), active, |before|)
  }

  ghost predicate Later(refs: seq<nat>, others: seq<nat>, at: nat) {
    forall i :: i in refs ==> i in others || i >= at
  }

  /** The only maybe blocks that have come up are new ones. */
  twostate predicate OnlyOwn(b: Builder)
    reads b
  {
    forall m :: m in b.pendingMaybes ==> m in old(b.pendingMaybes) || fresh(m)
  }

  /** They are those the program keeps. */
  ghost predicate Adds(now: seq<MaybeBlock>, was: seq<MaybeBlock>, hs: seq<Handle>) {
    && |now| == |hs| + |was| && now[|hs|..] == was
    && forall i :: 0 <= i < |hs| ==> now[i].patchPos == hs[i].at && now[i].instrs == hs[i].instrs
  }

  lemma AddsMore(a: seq<MaybeBlock>, b: seq<MaybeBlock>, c: seq<MaybeBlock>, h: seq<Handle>, k: seq<Handle>)
    requires Adds(b, a, h) && Adds(c, b, k)
    ensures Adds(c, a, k + h)
  {
    assert c[|k + h|..] == c[|k|..][|h|..];
    forall i | 0 <= i < |k + h| ensures c[i].patchPos == (k + h)[i].at && c[i].instrs == (k + h)[i].instrs {
      if i >= |k| { assert c[i] == c[|k|..][i - |k|]; }
    }
  }

  lemma AddsNothing(a: seq<MaybeBlock>)
    ensures Adds(a, a, [])
  {
  }

  ghost function DivOf(lp: Loop): Ls
    requires lp.orig != null
    reads lp, lp.orig
  {
    lp.orig.now
  }

  lemma JoinNothing(a: Ls)
    ensures Join(a, IDLE) == a && Join(IDLE, a) == a
  {
  }

  lemma JoinAssociates(a: Ls, b: Ls, c: Ls)
    ensures Join(Join(a, b), c) == Join(a, Join(b, c))
  {
  }

  /** Code behind branches to a label that is then set `extra` instructions behind the code. */
  lemma SetEnds(s0: seq<Instr>, s1: seq<Instr>, s2: seq<Instr>, p: seq<Item>, x: seq<Item>, extra: nat, top: int,
                start: int)
    requires Appended(s1, s0, p, top) && Appended(s2, s1, x, start)
    ensures var code := Resolve(p, |p| + |x| + extra, top - |s0|) + x;
            && Appended(Patch(s2, EndRefs(p, |s0|), |s2| + extra), s0, code, start)
            && EndRefs(code, |s0|) == EndRefs(x, |s0| + |p|)
  {
    hide EndRefs, Emitted, Appended;
    var refs, target := EndRefs(p, |s0|), |s2| + extra;
    var done, r := Patch(s2, refs, target), Resolve(p, |p| + |x| + extra, top - |s0|);
    AppendedOld(s1, s0, p, top);
    AppendedOld(s2, s1, x, start);
    forall i: nat ensures i in refs ==> |s0| <= i < |s1| { EndRefsAt(p, |s0|, i); }
    EmittedKept(s1, s2, |s0|, p, top);
    EmittedPatched(s2, |s0|, p, refs, target, top, start);
    EmittedKept(s2, done, |s1|, x, start);
    EmittedConcat(done, |s0|, r, x, start);
    AppendedIs(done, s0, r + x, start);
    ResolvedHasNoEnds(p, |p| + |x| + extra, top - |s0|, |s0|);
    EndRefsConcat(r, x, |s0|);
  }

  // ----- The client ---------------------------------------------------------------------------------

  method EmitStmt(b: Builder, s: Stmt, lp: Loop, ghost brk: bool, ghost cont: bool, ghost end: int)
    requires Ready(b, lp, Gen(b.lsSlot, s, b.Ctx(), lp.origCopy), end) && WellFormed(s, brk, cont)
    requires Fits(b.lsSlot, s, b.Ctx(), lp.origCopy, |b.View()|, end, lp.start.target)
    modifies b`instrs, b`stack, b`cur, b`pendingMaybes, b.pending, b.pending.block, b.pending.endLabel,
             b.pending.lsState,
             b.cur, lp.start, lp.end, lp.orig
    ensures Emitted'(b, lp, Gen(b.lsSlot, s, old(b.Ctx()), lp.origCopy), old(b.View()), old(lp.end.refs),
                     old(DivOf(lp)), old(b.ActiveRefs()))
    ensures b.Outer() == old(b.Outer()) && b.cur == old(b.cur) && Inside(b, lp, end)
    ensures lp.start.target == old(lp.start.target)
    ensures OnlyOwn(b)
    ensures Adds(b.pendingMaybes, old(b.pendingMaybes),
                 Kept(b.lsSlot, s, old(b.Ctx()), lp.origCopy, |old(b.View())|, lp.start.target))
    decreases s, 1
  {
    hide Gen, Fits, WellFormed, Emitted', Ready, Inside, Kept, KeptCases, Adds;
    match s
    case Seq(_, _) => EmitSeq(b, s, lp, brk, cont, end);
    case If(_, _, _) =>
      ReadyOpens(b, lp, Gen(b.lsSlot, s, b.Ctx(), lp.origCopy), end);
      EmitIf(b, s, lp, brk, cont, end);
    case IfElse(_, _, _, _) => EmitIfElse(b, s, lp, brk, cont, end);
    case While(_, _, _) => EmitWhile(b, s, lp, brk, cont, end);
    case BreakIf(_, _) => EmitJump(b, s, lp, brk, cont, end);
    case ContinueIf(_, _) => EmitJump(b, s, lp, brk, cont, end);
    case Match(_, _, _) => EmitMatch(b, s, lp, brk, cont, end);
    case Maybe(_, _) => EmitMaybe(b, s, lp, brk, cont, end);
    case _ => EmitSimple(b, s, lp, brk, cont, end);
  }

  /** Open the conditional and its body. */
  method OpenIf(b: Builder, cond: Cond, val: Val, lp: Loop, ghost p: Piece, ghost x: Out, ghost extra: nat,
                ghost end: int)
    returns (f: IfElse)
    requires cond != Always && p == GenBranch(b.lsSlot, End, Invert(cond), val, b.cur.now)
    requires b.Valid() && b.Calm() && Inside(b, lp, end) && lp.orig != b.cur && x.ok
    requires |b.View()| + |p.code| + |x.code| <= end
    requires InReach(p.code, |b.View()|, |b.View()| + |p.code| + |x.code| + extra, |b.View()|)
    modifies b`instrs, b`stack, b`cur, b.Closing(), b.cur
    ensures fresh(f) && fresh(f.block) && fresh(f.endLabel) && fresh(f.lsState)
    ensures Ready(b, lp, x, end) && !b.Active() && b.stack == f.block && f.block.next == old(b.Outer())
    ensures b.View() == b.instrs
    ensures Opened(b, f, |b.View()| + |x.code| + extra) && f.orig == old(b.cur) && f.orig.now == b.cur.now == p.tr
    ensures Appended(b.instrs, old(b.View()), p.code, |old(b.View())|)
    ensures f.endLabel.refs == EndRefs(p.code, |old(b.View())|)
  {
    hide Chained, AllNear, InReach, Appended, EndRefs, Patch, GenBranch;
    ghost var s0, l := b.View(), lp.end;
    f := new IfElse(b.cur);
    IfStart(b, f, cond, val, |s0| + |p.code| + |x.code| + extra, |s0|);
    AppendedSize(b.instrs, s0, p.code, |s0|);
    ChainedAppended(b.instrs, s0, p.code, |s0|, l.refs, l.lastForwardRef);
  }

  /** The body has been emitted: close the conditional, for the time being without an `else`. */
  method CloseIf(b: Builder, f: IfElse, lp: Loop, ghost p: Piece, ghost x: Out, ghost s0: seq<Instr>,
                 ghost s1: seq<Instr>, ghost refs: seq<nat>, ghost div: Ls, ghost end: int)
    requires Appended(s1, s0, p.code, |s0|) && Emitted'(b, lp, x, s1, refs, div, []) && !x.ctx.pend
    requires b.stack == f.block && f.block.next != b.pending.block && f.block != b.pending.block
    requires f != b.pending && f.endLabel != b.pending.endLabel && f.lsState != b.pending.lsState
    requires f.orig != f.lsState && f.orig != b.pending.lsState
    requires b.cur == f.lsState && f.endLabel.Open(s1) && f.endLabel.refs == EndRefs(p.code, |s0|)
    requires AllNear(f.endLabel.refs, |b.View()|)
    requires f.orig.now == p.tr && Inside(b, lp, end) && lp.end != f.endLabel && lp.start != f.endLabel
    requires lp.orig != b.cur
    requires forall k :: 0 <= k < |refs| ==> refs[k] < |s0|
    modifies b`stack, b`cur, b.pending, b.pending.block, b.pending.endLabel, b.pending.lsState, f.orig
    ensures b.Valid() && b.Active() && b.Outer() == f.block.next && b.cur == f.orig == b.pending.orig
    ensures b.instrs == old(b.instrs)
    ensures b.Ctx() == OutIf(p, x).ctx && b.ActiveRefs() == f.endLabel.refs && |b.View()| == |s1| + |x.code|
    ensures Appended(b.View(), s0, OutIf(p, x).code, lp.start.target) && Inside(b, lp, end)
    ensures EndRefs(OutIf(p, x).code, |s0|) == EndRefs(x.code, |s1|)
  {
    hide Chained, AllNear, Appended, EndRefs, Patch, Disjoint;
    ghost var s2, top, l := b.instrs, lp.start.target, lp.end;
    PatchNothing(b.instrs, |b.instrs|);
    AppendedSize(s1, s0, p.code, |s0|);
    AppendedSize(s2, s1, x.code, top);
    ChainedAppended(s2, s1, x.code, top, f.endLabel.refs, f.endLabel.lastForwardRef);
    SetEnds(s0, s1, s2, p.code, x.code, 0, |s0|, top);
    DisjointStretches(refs, p.code, x.code, |s0|);
    ChainedPatched(s2, l.refs, l.lastForwardRef, f.endLabel.refs, |s2|);
    IfEnd(b, f);
  }

  lemma LaterRefs(code: seq<Item>, at: nat, active: seq<nat>)
    ensures Later(EndRefs(code, at), active, at)
  {
    forall i: nat ensures i in EndRefs(code, at) ==> i >= at { EndRefsAt(code, at, i); }
  }

  /** A conditional without `else`, for a branch that may lead `extra` instructions further. */
  method EmitThen(b: Builder, cond: Cond, val: Val, thn: Stmt, lp: Loop, ghost p: Piece, ghost x: Out, ghost brk: bool,
                  ghost cont: bool, ghost extra: nat, ghost end: int)
    returns (ghost s1: seq<Instr>)
    requires cond != Always && WellFormed(thn, brk, cont)
    requires p == GenBranch(b.lsSlot, End, Invert(cond), val, b.cur.now)
    requires x == Gen(b.lsSlot, thn, Ctx(p.tr, b.Ctx().ifLs, false), lp.origCopy) && x.ok && !x.ctx.pend
    requires b.Valid() && b.Calm() && Inside(b, lp, end) && lp.orig != b.cur
    requires |b.View()| + |p.code| + |x.code| <= end
    requires InReach(p.code, |b.View()|, |b.View()| + |p.code| + |x.code| + extra, |b.View()|) && extra <= 1
    requires Fits(b.lsSlot, thn, Ctx(p.tr, b.Ctx().ifLs, false), lp.origCopy,
                  |b.View()| + |p.code|, end, lp.start.target)
    modifies b`instrs, b`stack, b`cur, b`pendingMaybes, b.pending, b.pending.block, b.pending.endLabel,
             b.pending.lsState,
             b.cur, lp.start, lp.end, lp.orig
    ensures b.Valid() && b.Active() && b.Outer() == old(b.Outer()) && b.cur == b.pending.orig == old(b.cur)
    ensures b.Ctx() == OutIf(p, x).ctx
    ensures Appended(s1, old(b.View()), p.code, |old(b.View())|) && Appended(b.instrs, s1, x.code, lp.start.target)
    ensures b.ActiveRefs() == EndRefs(p.code, |old(b.View())|) && AllNear(b.ActiveRefs(), |b.instrs| + extra)
    ensures Inside(b, lp, end) && Chained(b.instrs, lp.end.refs, lp.end.lastForwardRef)
    ensures lp.start.target == old(lp.start.target)
    ensures lp.end.refs == old(lp.end.refs) + EndRefs(x.code, |s1|) && lp.orig.now == Join(old(DivOf(lp)), x.div)
    ensures Appended(b.View(), old(b.View()), OutIf(p, x).code, lp.start.target)
    ensures EndRefs(OutIf(p, x).code, |old(b.View())|) == EndRefs(x.code, |s1|)
    ensures OnlyOwn(b)
    ensures Adds(b.pendingMaybes, old(b.pendingMaybes),
                 Kept(b.lsSlot, thn, Ctx(p.tr, old(b.Ctx()).ifLs, false), lp.origCopy,
                      |old(b.View())| + |p.code|, lp.start.target))
    decreases thn, 3
  {
    hide Gen, Fits, WellFormed, OutIf, Appended, Chained, AllNear, InReach, EndRefs, Patch, GenBranch, Disjoint, Kept,
         KeptCases, Adds;
    ghost var s0, l := b.View(), lp.end;
    ChainedBelow(s0, l.refs, l.lastForwardRef);
    var f := OpenIf(b, cond, val, lp, p, x, extra, end);
    s1 := b.View();
    AppendedSize(s1, s0, p.code, |s0|);
    EmitArm(b, f, thn, lp, p, x, brk, cont, extra, s0, end);
  }

  /** The body of a conditional that has been opened. */
  method EmitArm(b: Builder, f: IfElse, thn: Stmt, lp: Loop, ghost p: Piece, ghost x: Out, ghost brk: bool,
                 ghost cont: bool, ghost extra: nat, ghost s0: seq<Instr>, ghost end: int)
    requires WellFormed(thn, brk, cont) && x == Gen(b.lsSlot, thn, b.Ctx(), lp.origCopy) && !x.ctx.pend && extra <= 1
    requires Ready(b, lp, x, end) && !b.Active() && b.stack == f.block && f.block.next != b.pending.block
    requires f != b.pending && f.block != b.pending.block && f.endLabel != b.pending.endLabel
    requires f.lsState != b.pending.lsState
    requires f.lsState == b.cur && f.orig != b.cur && f.orig != b.pending.lsState && lp.orig != f.orig
    requires lp.end != f.endLabel && lp.start != f.endLabel && Opened(b, f, |b.View()| + |x.code| + extra)
    requires f.orig.now == p.tr && Appended(b.View(), s0, p.code, |s0|) && f.endLabel.refs == EndRefs(p.code, |s0|)
    requires Fits(b.lsSlot, thn, b.Ctx(), lp.origCopy, |b.View()|, end, lp.start.target)
    requires forall k :: 0 <= k < |lp.end.refs| ==> lp.end.refs[k] < |s0|
    modifies b`instrs, b`stack, b`cur, b`pendingMaybes, b.pending, b.pending.block, b.pending.endLabel,
             b.pending.lsState,
             b.cur, f.orig, lp.start, lp.end, lp.orig
    ensures b.Valid() && b.Active() && b.Outer() == f.block.next && b.cur == b.pending.orig == f.orig
    ensures b.Ctx() == OutIf(p, x).ctx
    ensures Appended(b.instrs, old(b.View()), x.code, lp.start.target)
    ensures b.ActiveRefs() == EndRefs(p.code, |s0|) && AllNear(b.ActiveRefs(), |b.instrs| + extra)
    ensures Inside(b, lp, end) && Chained(b.instrs, lp.end.refs, lp.end.lastForwardRef)
    ensures lp.start.target == old(lp.start.target)
    ensures lp.end.refs == old(lp.end.refs) + EndRefs(x.code, |old(b.View())|)
    ensures lp.orig.now == Join(old(DivOf(lp)), x.div)
    ensures Appended(b.View(), s0, OutIf(p, x).code, lp.start.target)
    ensures EndRefs(OutIf(p, x).code, |s0|) == EndRefs(x.code, |old(b.View())|)
    ensures OnlyOwn(b)
    ensures Adds(b.pendingMaybes, old(b.pendingMaybes),
                 Kept(b.lsSlot, thn, old(b.Ctx()), lp.origCopy, |old(b.View())|, lp.start.target))
    decreases thn, 2
  {
    hide Gen, Fits, WellFormed, OutIf, Appended, Chained, AllNear, InReach, EndRefs, Patch, GenBranch, Disjoint, Kept,
         KeptCases, Adds;
    ghost var s1, l := b.View(), lp.end;
    EmitStmt(b, thn, lp, brk, cont, end);
    AppendedSize(b.View(), s1, x.code, lp.start.target);
    PatchNothing(b.instrs, |b.instrs|);
    ChainedBelow(s1, f.endLabel.refs, f.endLabel.lastForwardRef);
    if extra == 1 { NearLess(f.endLabel.refs, |b.instrs| + 1); }
    CloseIf(b, f, lp, p, x, s0, s1, old(l.refs), old(DivOf(lp)), end);
  }

  method EmitIf(b: Builder, s: Stmt, lp: Loop, ghost brk: bool, ghost cont: bool, ghost end: int)
    requires s.If?
    requires Openable(b, lp, Gen(b.lsSlot, s, b.Ctx(), lp.origCopy), end) && WellFormed(s, brk, cont)
    requires Fits(b.lsSlot, s, b.Ctx(), lp.origCopy, |b.View()|, end, lp.start.target)
    modifies b`instrs, b`stack, b`cur, b`pendingMaybes, b.pending, b.pending.block, b.pending.endLabel,
             b.pending.lsState,
             b.cur, lp.start, lp.end, lp.orig
    ensures Emitted'(b, lp, Gen(b.lsSlot, s, old(b.Ctx()), lp.origCopy), old(b.View()), old(lp.end.refs),
                     old(DivOf(lp)), old(b.ActiveRefs()))
    ensures b.Outer() == old(b.Outer()) && b.cur == old(b.cur) && Inside(b, lp, end)
    ensures lp.start.target == old(lp.start.target)
    ensures OnlyOwn(b)
    ensures Adds(b.pendingMaybes, old(b.pendingMaybes),
                 Kept(b.lsSlot, s, old(b.Ctx()), lp.origCopy, |old(b.View())|, lp.start.target))
    decreases s, 0
  {
    hide Gen, Fits, WellFormed, OutIf, Appended, Chained, AllNear, InReach, EndRefs, Patch, GenBranch, Disjoint, Kept,
         KeptCases, Adds;
    ghost var ls, g, head, s0 := b.lsSlot, b.Ctx(), lp.origCopy, b.View();
    ghost var p := GenBranch(ls, End, Invert(s.cond), s.val, g.tr);
    ghost var x := Gen(ls, s.thn, Ctx(p.tr, g.ifLs, false), head);
    IfParts(ls, s, g, head, |s0|, brk, cont, end, lp.start.target);
    KeptIf(ls, s, g, head, |s0|, lp.start.target);
    ghost var s1 := EmitThen(b, s.cond, s.val, s.thn, lp, p, x, brk, cont, 0, end);
    LaterRefs(p.code, |s0|, old(b.ActiveRefs()));
  }

  lemma IfParts(ls: nat, s: Stmt, g: Ctx, head: Ls, at: nat, brk: bool, cont: bool, end: int, start: int)
    requires s.If? && WellFormed(s, brk, cont) && Fits(ls, s, g, head, at, end, start)
    ensures var p := GenBranch(ls, End, Invert(s.cond), s.val, g.tr);
            var g1 := Ctx(p.tr, g.ifLs, false);
            var x := Gen(ls, s.thn, g1, head);
            && s.cond != Always && WellFormed(s.thn, brk, cont)
            && Gen(ls, s, g, head) == OutIf(p, x) && OutIf(p, x).div == x.div && OutIf(p, x).ok == (x.ok && !x.ctx.pend)
            && InReach(p.code, at, at + |p.code| + |x.code|, at) && Fits(ls, s.thn, g1, head, at + |p.code|, end, start)
            && |OutIf(p, x).code| == |p.code| + |x.code|
  {
  }

  /** The closed conditional gets an `else`. */
  method OpenElse(b: Builder, lp: Loop, ghost p: Piece, ghost x: Out, ghost y: Out, ghost s0: seq<Instr>,
                  ghost s1: seq<Instr>, ghost refs: seq<nat>, ghost end: int)
    returns (e: IfElse, ghost mid: seq<Instr>)
    requires b.Valid() && b.Active() && b.pending.orig == b.cur && b.Ctx() == OutIf(p, x).ctx
    requires Appended(s1, s0, p.code, |s0|) && Appended(b.instrs, s1, x.code, lp.start.target)
    requires b.ActiveRefs() == EndRefs(p.code, |s0|) && AllNear(b.ActiveRefs(), |b.instrs| + 1)
    requires Near(|b.instrs|, |b.instrs| + 1 + |y.code|)
    requires Inside(b, lp, end) && Chained(b.instrs, lp.end.refs, lp.end.lastForwardRef) && lp.orig != b.cur
    requires y.ok && |b.instrs| + 1 + |y.code| <= end
    requires lp.end.refs == refs + EndRefs(x.code, |s1|) && forall k :: 0 <= k < |refs| ==> refs[k] < |s0|
    modifies b`instrs, b`stack, b`cur, b.pending.endLabel, b.cur
    ensures fresh(e) && fresh(e.block) && fresh(e.endLabel) && fresh(e.lsState)
    ensures Ready(b, lp, y, end) && !b.Active() && b.stack == e.block && e.block.next == old(b.Outer())
    ensures b.View() == b.instrs
    ensures Opened(b, e, |b.View()| + |y.code|) && e.orig == old(b.cur) && b.Ctx() == ElseCtx(p, x)
    ensures |mid| == |old(b.instrs)| && e.endLabel.refs == [|mid|]
    ensures Appended(b.instrs, mid, [ToEnd(Always, 0, x.ctx.tr.loads)], lp.start.target)
    ensures Appended(mid, s0, Resolve(p.code, |p.code| + |x.code| + 1, 0) + x.code, lp.start.target)
  {
    hide Chained, AllNear, Appended, EndRefs, Patch, Disjoint, Resolve;
    ghost var s2, top, l, own := b.instrs, lp.start.target, lp.end, b.ActiveRefs();
    mid := Patch(s2, own, |s2| + 1);
    AppendedSize(s1, s0, p.code, |s0|);
    AppendedSize(s2, s1, x.code, top);
    SetEnds(s0, s1, s2, p.code, x.code, 1, |s0|, top);
    DisjointStretches(refs, p.code, x.code, |s0|);
    ChainedPatched(s2, l.refs, l.lastForwardRef, own, |s2| + 1);
    e := new IfElse(b.cur);
    ghost var loads := b.cur.now.loads;
    ElseStart(b, e, |s2| + 1 + |y.code|, top);
    AppendedSize(b.instrs, mid, [ToEnd(Always, 0, loads)], top);
    AppendedAnyLoads(b.instrs, mid, loads, x.ctx.tr.loads, top);
    ChainedAppended(b.instrs, mid, [ToEnd(Always, 0, loads)], top, l.refs, l.lastForwardRef);
  }

  /** What may be in flight at a branch does not show in the code. */
  lemma AppendedAnyLoads(now: seq<Instr>, before: seq<Instr>, a: set<Reg>, b: set<Reg>, start: int)
    requires Appended(now, before, [ToEnd(Always, 0, a)], start)
    ensures Appended(now, before, [ToEnd(Always, 0, b)], start)
  {
    assert Matches(now[|before| + 0], [ToEnd(Always, 0, a)][0], |before| + 0, start);
  }

  /** The branch between the bodies, once the end of the second is known. */
  lemma AwayCode(mid: seq<Instr>, s3: seq<Instr>, s4: seq<Instr>, loads: set<Reg>, y: seq<Item>, top: int)
    requires Appended(s3, mid, [ToEnd(Always, 0, loads)], top) && Appended(s4, s3, y, top)
    ensures Appended(Patch(s4, [|mid|], |s4|), mid, [Emit(Branch(|y|, Always, 0), loads)] + y, top)
    ensures EndRefs([Emit(Branch(|y|, Always, 0), loads)] + y, |mid|) == EndRefs(y, |mid| + 1)
  {
    hide Appended, EndRefs, Patch;
    var away := ToEnd(Always, 0, loads);
    OneRef(away, |mid|, 0, 0);
    SetEnds(mid, s3, s4, [away], y, 0, top, top);
    assert Resolve([away], 1 + |y|, top - |mid|) == [Emit(Branch(|y|, Always, 0), loads)];
  }

  /** The code of both bodies, with the branch between them. */
  lemma ElseCode(s0: seq<Instr>, mid: seq<Instr>, s3: seq<Instr>, s4: seq<Instr>, a: seq<Item>, y: seq<Item>,
                 loads: set<Reg>, top: int)
    requires Appended(mid, s0, a, top) && Appended(s3, mid, [ToEnd(Always, 0, loads)], top) && Appended(s4, s3, y, top)
    ensures var rest := [Emit(Branch(|y|, Always, 0), loads)] + y;
            && Appended(Patch(s4, [|mid|], |s4|), s0, a + rest, top)
            && EndRefs(a + rest, |s0|) == EndRefs(a, |s0|) + EndRefs(y, |s3|)
  {
    hide Appended, EndRefs, Patch;
    AppendedSize(mid, s0, a, top);
    AppendedSize(s3, mid, [ToEnd(Always, 0, loads)], top);
    AwayCode(mid, s3, s4, loads, y, top);
    var rest := [Emit(Branch(|y|, Always, 0), loads)] + y;
    AppendedTwice(s0, mid, Patch(s4, [|mid|], |s4|), a, rest, top);
    EndRefsConcat(a, rest, |s0|);
  }

  lemma ElseParts(p: Piece, x: Out, y: Out, at: nat)
    ensures var a := Resolve(p.code, |p.code| + |x.code| + 1, 0) + x.code;
            && OutIfElse(p, x, y).code == a + ([Emit(Branch(|y.code|, Always, 0), x.ctx.tr.loads)] + y.code)
            && EndRefs(a, at) == EndRefs(x.code, at + |p.code|)
  {
    hide EndRefs, Resolve;
    var r := Resolve(p.code, |p.code| + |x.code| + 1, 0);
    ResolvedHasNoEnds(p.code, |p.code| + |x.code| + 1, 0, at);
    EndRefsConcat(r, x.code, at);
  }

  method CloseElse(b: Builder, e: IfElse, lp: Loop, ghost p: Piece, ghost x: Out, ghost y: Out, ghost s0: seq<Instr>,
                   ghost mid: seq<Instr>,
                   ghost s3: seq<Instr>, ghost refs: seq<nat>, ghost div: Ls, ghost end: int, ghost active: seq<nat>)
    requires Appended(mid, s0, Resolve(p.code, |p.code| + |x.code| + 1, 0) + x.code, lp.start.target)
    requires Appended(s3, mid, [ToEnd(Always, 0, x.ctx.tr.loads)], lp.start.target)
    requires Emitted'(b, lp, y, s3, refs + EndRefs(x.code, |s0| + |p.code|), Join(div, x.div), [])
    requires b.Outer() == e.block && e.block.next != null && e.block.next != b.pending.block
    requires e.block != b.pending.block
    requires e != b.pending && e.endLabel != b.pending.endLabel && e.lsState != b.pending.lsState
    requires e.orig != e.lsState && e.orig != b.pending.lsState
    requires b.cur == e.lsState && e.endLabel.Open(s3) && e.endLabel.refs == [|mid|]
    requires AllNear(e.endLabel.refs, |b.View()|)
    requires Inside(b, lp, end) && lp.end != e.endLabel && lp.start != e.endLabel && lp.orig != b.cur
    requires lp.orig != e.orig
    requires forall k :: 0 <= k < |refs| ==> refs[k] < |s0|
    modifies b`instrs, b`stack, b`cur, b.Closing(), e.endLabel, e.orig
    ensures b.Outer() == e.block.next && b.cur == e.orig && Inside(b, lp, end)
    ensures Emitted'(b, lp, OutIfElse(p, x, y), s0, refs, div, active)
  {
    ghost var a := Resolve(p.code, |p.code| + |x.code| + 1, 0) + x.code;
    hide Chained, AllNear, Appended, EndRefs, Patch, Disjoint, Resolve;
    ghost var s4, top, l, z := b.View(), lp.start.target, lp.end, [ToEnd(Always, 0, x.ctx.tr.loads)];
    AppendedSize(mid, s0, a, top);
    AppendedSize(s3, mid, z, top);
    AppendedSize(s4, s3, y.code, top);
    ElseCode(s0, mid, s3, s4, a, y.code, x.ctx.tr.loads, top);
    ElseParts(p, x, y, |s0|);
    ChainedAppended(s4, s3, y.code, top, e.endLabel.refs, e.endLabel.lastForwardRef);
    ElseApart(b.ActiveRefs(), refs, x.code, y.code, |s0| + |p.code|, |mid|);
    ChainedPatched(s4, l.refs, l.lastForwardRef, [|mid|], |s4|);
    JoinAssociates(div, x.div, y.div);
    ElseEnd(b, e);
  }

  lemma ElseApart(active: seq<nat>, refs: seq<nat>, x: seq<Item>, y: seq<Item>, at: nat, mid: nat)
    requires Later(active, [], mid + 1) && mid == at + |x| && forall k :: 0 <= k < |refs| ==> refs[k] < at
    ensures Disjoint(active, [mid]) && Disjoint([mid], refs + EndRefs(x, at) + EndRefs(y, mid + 1))
  {
    EndRefsAt(x, at, mid);
    EndRefsAt(y, mid + 1, mid);
  }

  method EmitIfElse(b: Builder, s: Stmt, lp: Loop, ghost brk: bool, ghost cont: bool, ghost end: int)
    requires s.IfElse?
    requires Ready(b, lp, Gen(b.lsSlot, s, b.Ctx(), lp.origCopy), end) && WellFormed(s, brk, cont)
    requires Fits(b.lsSlot, s, b.Ctx(), lp.origCopy, |b.View()|, end, lp.start.target)
    modifies b`instrs, b`stack, b`cur, b`pendingMaybes, b.pending, b.pending.block, b.pending.endLabel,
             b.pending.lsState,
             b.cur, lp.start, lp.end, lp.orig
    ensures Emitted'(b, lp, Gen(b.lsSlot, s, old(b.Ctx()), lp.origCopy), old(b.View()), old(lp.end.refs),
                     old(DivOf(lp)), old(b.ActiveRefs()))
    ensures b.Outer() == old(b.Outer()) && b.cur == old(b.cur) && Inside(b, lp, end)
    ensures lp.start.target == old(lp.start.target)
    ensures OnlyOwn(b)
    ensures Adds(b.pendingMaybes, old(b.pendingMaybes),
                 Kept(b.lsSlot, s, old(b.Ctx()), lp.origCopy, |old(b.View())|, lp.start.target))
    decreases s, 0
  {
    hide Gen, Fits, WellFormed, OutIf, OutIfElse, ElseCtx, Appended, Chained, AllNear, InReach, EndRefs, Patch,
         GenBranch, Disjoint, Resolve, Kept, KeptCases, Adds;
    ghost var ls, g, head, s0, l := b.lsSlot, b.Ctx(), lp.origCopy, b.View(), lp.end;
    ghost var p := GenBranch(ls, End, Invert(s.cond), s.val, g.tr);
    ghost var x := Gen(ls, s.thn, Ctx(p.tr, g.ifLs, false), head);
    IfElseParts(ls, s, g, head, |s0|, brk, cont, end, lp.start.target);
    KeptElse(ls, s, g, head, |s0|, lp.start.target);
    ChainedBelow(s0, l.refs, l.lastForwardRef);
    ghost var s1 := EmitThen(b, s.cond, s.val, s.thn, lp, p, x, brk, cont, 1, end);
    AppendedSize(s1, s0, p.code, |s0|);
    AppendedSize(b.instrs, s1, x.code, lp.start.target);
    ghost var mid := b.pendingMaybes;
    EmitElse(b, s.els, lp, p, x, brk, cont, s0, s1, old(l.refs), old(DivOf(lp)), end, old(b.ActiveRefs()));
    AddsMore(old(b.pendingMaybes), mid, b.pendingMaybes,
             Kept(ls, s.thn, Ctx(p.tr, g.ifLs, false), head, |s0| + |p.code|, lp.start.target),
             Kept(ls, s.els, ElseCtx(p, x), head, |s0| + |p.code| + |x.code| + 1, lp.start.target));
  }

  method EmitElse(b: Builder, els: Stmt, lp: Loop, ghost p: Piece, ghost x: Out, ghost brk: bool, ghost cont: bool,
                  ghost s0: seq<Instr>, ghost s1: seq<Instr>, ghost refs: seq<nat>, ghost div: Ls, ghost end: int,
                  ghost active: seq<nat>)
    requires b.Valid() && b.Active() && b.Outer() != null && b.pending.orig == b.cur && b.Ctx() == OutIf(p, x).ctx
    requires OutIf(p, x).ctx == ElseCtx(p, x).(pend := true) && WellFormed(els, brk, cont)
    requires Appended(s1, s0, p.code, |s0|) && Appended(b.instrs, s1, x.code, lp.start.target)
    requires b.ActiveRefs() == EndRefs(p.code, |s0|) && AllNear(b.ActiveRefs(), |b.instrs| + 1)
    requires Inside(b, lp, end) && Chained(b.instrs, lp.end.refs, lp.end.lastForwardRef) && lp.orig != b.cur
    requires var y := Gen(b.lsSlot, els, ElseCtx(p, x), lp.origCopy);
             y.ok && |b.instrs| + 1 + |y.code| <= end && Near(|b.instrs|, |b.instrs| + 1 + |y.code|)
    requires Fits(b.lsSlot, els, ElseCtx(p, x), lp.origCopy, |b.instrs| + 1, end, lp.start.target)
    requires lp.end.refs == refs + EndRefs(x.code, |s1|) && lp.orig.now == Join(div, x.div)
    requires forall k :: 0 <= k < |refs| ==> refs[k] < |s0|
    modifies b`instrs, b`stack, b`cur, b`pendingMaybes, b.pending, b.pending.block, b.pending.endLabel,
             b.pending.lsState,
             b.cur, lp.start, lp.end, lp.orig
    ensures Emitted'(b, lp, OutIfElse(p, x, Gen(b.lsSlot, els, ElseCtx(p, x), lp.origCopy)), s0, refs, div, active)
    ensures b.Outer() == old(b.Outer()) && b.cur == old(b.cur) && Inside(b, lp, end)
    ensures lp.start.target == old(lp.start.target)
    ensures OnlyOwn(b)
    ensures Adds(b.pendingMaybes, old(b.pendingMaybes),
                 Kept(b.lsSlot, els, ElseCtx(p, x), lp.origCopy, |old(b.instrs)| + 1, lp.start.target))
    decreases els, 3
  {
    hide Gen, Fits, WellFormed, OutIf, OutIfElse, ElseCtx, Appended, Chained, AllNear, InReach, EndRefs, Patch,
         Disjoint, Resolve, Kept, KeptCases, Adds;
    ghost var y := Gen(b.lsSlot, els, ElseCtx(p, x), lp.origCopy);
    AppendedSize(s1, s0, p.code, |s0|);
    AppendedSize(b.instrs, s1, x.code, lp.start.target);
    var e;
    ghost var mid;
    e, mid := OpenElse(b, lp, p, x, y, s0, s1, refs, end);
    ghost var s3 := b.View();
    AppendedSize(s3, mid, [ToEnd(Always, 0, x.ctx.tr.loads)], lp.start.target);
    EmitElseBody(b, e, els, lp, p, x, y, brk, cont, s0, mid, refs, div, end, active);
  }

  method EmitElseBody(b: Builder, e: IfElse, els: Stmt, lp: Loop, ghost p: Piece, ghost x: Out, ghost y: Out,
                      ghost brk: bool,
                      ghost cont: bool, ghost s0: seq<Instr>, ghost mid: seq<Instr>, ghost refs: seq<nat>,
                      ghost div: Ls, ghost end: int, ghost active: seq<nat>)
    requires WellFormed(els, brk, cont) && y == Gen(b.lsSlot, els, b.Ctx(), lp.origCopy) && Ready(b, lp, y, end)
    requires !b.Active() && b.stack == e.block && e.block.next != null && e.block.next != b.pending.block
    requires e.block != b.pending.block
    requires e != b.pending && e.endLabel != b.pending.endLabel && e.lsState != b.pending.lsState && e.lsState == b.cur
    requires e.orig != b.cur && e.orig != b.pending.lsState && e.orig != lp.orig && lp.end != e.endLabel
    requires lp.start != e.endLabel
    requires Opened(b, e, |b.View()| + |y.code|) && e.endLabel.refs == [|mid|]
    requires Fits(b.lsSlot, els, b.Ctx(), lp.origCopy, |b.View()|, end, lp.start.target)
    requires Appended(mid, s0, Resolve(p.code, |p.code| + |x.code| + 1, 0) + x.code, lp.start.target)
    requires Appended(b.View(), mid, [ToEnd(Always, 0, x.ctx.tr.loads)], lp.start.target)
    requires lp.end.refs == refs + EndRefs(x.code, |s0| + |p.code|) && DivOf(lp) == Join(div, x.div)
    requires forall k :: 0 <= k < |refs| ==> refs[k] < |s0|
    modifies b`instrs, b`stack, b`cur, b`pendingMaybes, b.pending, b.pending.block, b.pending.endLabel,
             b.pending.lsState,
             b.cur, e.endLabel, e.orig, lp.start, lp.end, lp.orig
    ensures Emitted'(b, lp, OutIfElse(p, x, y), s0, refs, div, active)
    ensures b.Outer() == e.block.next && b.cur == e.orig && e.orig == old(e.orig) && Inside(b, lp, end)
    ensures lp.start.target == old(lp.start.target)
    ensures OnlyOwn(b)
    ensures Adds(b.pendingMaybes, old(b.pendingMaybes),
                 Kept(b.lsSlot, els, old(b.Ctx()), lp.origCopy, |old(b.View())|, lp.start.target))
    decreases els, 2
  {
    hide Gen, Fits, WellFormed, OutIf, OutIfElse, ElseCtx, Appended, Chained, AllNear, InReach, EndRefs, Patch,
         Disjoint, Resolve, Kept, KeptCases, Adds;
    ghost var s3 := b.View();
    assert e.endLabel.Open(s3);
    EmitStmt(b, els, lp, brk, cont, end);
    AppendedSize(b.View(), s3, y.code, lp.start.target);
    CloseElse(b, e, lp, p, x, y, s0, mid, s3, refs, div, end, active);
  }

  lemma NearLess(refs: seq<nat>, target: nat)
    requires AllNear(refs, target) && target > 0
    ensures (forall k :: 0 <= k < |refs| ==> refs[k] < target - 1) ==> AllNear(refs, target - 1)
  {
  }

  lemma IfElseParts(ls: nat, s: Stmt, g: Ctx, head: Ls, at: nat, brk: bool, cont: bool, end: int, start: int)
    requires s.IfElse? && WellFormed(s, brk, cont) && Fits(ls, s, g, head, at, end, start)
    ensures var p := GenBranch(ls, End, Invert(s.cond), s.val, g.tr);
            var g1 := Ctx(p.tr, g.ifLs, false);
            var x := Gen(ls, s.thn, g1, head);
            var y := Gen(ls, s.els, ElseCtx(p, x), head);
            var mid := at + |p.code| + |x.code|;
            && s.cond != Always && WellFormed(s.thn, brk, cont) && WellFormed(s.els, brk, cont)
            && Gen(ls, s, g, head) == OutIfElse(p, x, y) && OutIfElse(p, x, y).ok == (x.ok && !x.ctx.pend && y.ok)
            && OutIf(p, x).ctx == ElseCtx(p, x).(pend := true)
            && InReach(p.code, at, mid + 1, at) && Fits(ls, s.thn, g1, head, at + |p.code|, end, start)
            && Near(mid, mid + 1 + |y.code|) && Fits(ls, s.els, ElseCtx(p, x), head, mid + 1, end, start)
            && |OutIfElse(p, x, y).code| == |p.code| + |x.code| + 1 + |y.code|
  {
  }

  // ----- Loops --------------------------------------------------------------------------------------

  method OpenLoop(b: Builder, cond: Cond, val: Val, lp: Loop, ghost p: Piece, ghost x: Out, ghost stop: int,
                  ghost end: int) returns (w: Loop)
    requires p == Entry(b.lsSlot, cond, val, b.cur.now) && x.ok
    requires b.Valid() && b.Calm() && Inside(b, lp, end) && lp.orig != b.cur
    requires InReach(p.code, |b.View()|, stop, |b.View()| + |p.code|) && |b.View()| + |p.code| + |x.code| <= stop
    modifies b`instrs, b`stack, b`cur, b.Closing(), b.cur
    ensures fresh(w) && fresh(w.start) && fresh(w.end) && fresh(w.block) && fresh(w.lsState) && w.cond == cond
    ensures w.val == val
    ensures Ready(b, w, x, stop) && !b.Active() && b.stack == w.block && w.block.next == old(b.Outer())
    ensures b.View() == b.instrs
    ensures w.orig == old(b.cur) && w.orig.now == w.origCopy == b.cur.now == p.tr && b.cur == w.lsState
    ensures Appended(b.instrs, old(b.View()), p.code, |old(b.View())| + |p.code|)
    ensures w.start.target == |old(b.View())| + |p.code|
    ensures w.end.refs == EndRefs(p.code, |old(b.View())|) && Inside(b, lp, end)
  {
    hide Chained, AllNear, InReach, Appended, EndRefs, Patch, GenBranch, Entry;
    ghost var s0, l := b.View(), lp.end;
    w := new Loop(cond, val);
    WhileStart(b, w, stop, |s0| + |p.code|);
    AppendedSize(b.instrs, s0, p.code, |s0| + |p.code|);
    ChainedAppended(b.instrs, s0, p.code, |s0| + |p.code|, l.refs, l.lastForwardRef);
  }

  lemma ThreeAppended(s0: seq<Instr>, s1: seq<Instr>, s2: seq<Instr>, s3: seq<Instr>, p: seq<Item>, x: seq<Item>,
                      q: seq<Item>, top: int)
    requires Appended(s1, s0, p, top) && Appended(s2, s1, x, top) && Appended(s3, s2, q, top)
    ensures Appended(s3, s0, p + x + q, top)
    ensures EndRefs(p + x + q, |s0|) == EndRefs(p, |s0|) + EndRefs(x, |s1|) + EndRefs(q, |s2|)
  {
    hide Appended, EndRefs;
    AppendedSize(s1, s0, p, top);
    AppendedSize(s2, s1, x, top);
    AppendedTwice(s0, s1, s2, p, x, top);
    AppendedTwice(s0, s2, s3, p + x, q, top);
    EndRefsConcat(p, x, |s0|);
    EndRefsConcat(p + x, q, |s0|);
  }

  /** Code that ends where its own end label is set. */
  lemma SetOwnEnd(s0: seq<Instr>, s1: seq<Instr>, code: seq<Item>, top: int, start: int)
    requires Appended(s1, s0, code, top)
    ensures Appended(Patch(s1, EndRefs(code, |s0|), |s1|), s0, Resolve(code, |code|, top - |s0|), start)
  {
    hide Appended, EndRefs, Patch, Resolve;
    AppendedSelf(s1, start);
    SetEnds(s0, s1, s1, code, [], 0, top, start);
    assert Resolve(code, |code|, top - |s0|) + [] == Resolve(code, |code|, top - |s0|);
  }

  /** References from before a loop survive it. */
  lemma LoopChain(s0: seq<Instr>, s3: seq<Instr>, inner: seq<Item>, top: int, refs: seq<nat>, last: int)
    requires Appended(s3, s0, inner, top) && Chained(s0, refs, last)
    ensures Chained(Patch(s3, EndRefs(inner, |s0|), |s3|), refs, last)
  {
    hide Appended, EndRefs, Patch, Chained;
    ChainedBelow(s0, refs, last);
    ChainedAppended(s3, s0, inner, top, refs, last);
    forall i: nat ensures i in EndRefs(inner, |s0|) ==> i !in refs { EndRefsAt(inner, |s0|, i); }
    ChainedPatched(s3, refs, last, EndRefs(inner, |s0|), |s3|);
  }

  lemma LoopDone(ls: nat, cond: Cond, val: Val, s0: seq<Instr>, s1: seq<Instr>, s2: seq<Instr>, s3: seq<Instr>,
                 p: Piece, x: Out, top: int, start: int, refs: seq<nat>, last: int)
    requires top == |s0| + |p.code| && Appended(s1, s0, p.code, top) && Appended(s2, s1, x.code, top)
    requires Appended(s3, s2, Again(ls, cond, val, p.tr, x.ctx.tr).code, top) && Chained(s0, refs, last)
    ensures var all := EndRefs(p.code, |s0|) + EndRefs(x.code, |s1|);
            var o := OutWhile(ls, cond, val, p, x);
            && Appended(Patch(s3, all, |s3|), s0, o.code, start) && Chained(Patch(s3, all, |s3|), refs, last)
            && EndRefs(o.code, |s0|) == [] && o.div == IDLE
            && o.ctx == Ctx(Join(Join(p.tr, x.div), Again(ls, cond, val, p.tr, x.ctx.tr).tr), x.ctx.ifLs, false)
  {
    hide Appended, EndRefs, Patch, Resolve, Again, OutWhile, Chained;
    var q := Again(ls, cond, val, p.tr, x.ctx.tr);
    var inner := p.code + x.code + q.code;
    WhileParts(ls, cond, val, p, x);
    AgainHasNoEnds(ls, cond, val, p.tr, x.ctx.tr, |s2|);
    ThreeAppended(s0, s1, s2, s3, p.code, x.code, q.code, top);
    assert EndRefs(inner, |s0|) == EndRefs(p.code, |s0|) + EndRefs(x.code, |s1|);
    SetOwnEnd(s0, s3, inner, top, start);
    LoopChain(s0, s3, inner, top, refs, last);
    ResolvedHasNoEnds(inner, |inner|, |p.code|, |s0|);
  }

  method CloseLoop(b: Builder, w: Loop, lp: Loop, ghost p: Piece, ghost x: Out, ghost s0: seq<Instr>,
                   ghost s1: seq<Instr>, ghost end: int, ghost active: seq<nat>)
    requires var top := |s0| + |p.code|;
             Appended(s1, s0, p.code, top) && Emitted'(b, w, x, s1, EndRefs(p.code, |s0|), p.tr, [])
                 && w.start.target == top && w.origCopy == p.tr
    requires b.Outer() == w.block && w.block.next != null && w.block.next != b.pending.block
    requires w.block != b.pending.block
    requires b.cur == w.lsState && w.orig != b.cur && w.orig != lp.orig && w.end != lp.end && w.start != lp.start
    requires w.end != lp.start && w.start != lp.end
    requires var q := Again(b.lsSlot, w.cond, w.val, p.tr, x.ctx.tr).code;
             var stop := |b.View()| + |q|;
             Inside(b, w, stop) && InReach(q, |b.View()|, stop, w.start.target)
    requires Chained(s0, lp.end.refs, lp.end.lastForwardRef) && Inside(b, lp, end) && lp.orig != b.cur
    modifies b`instrs, b`stack, b`cur, b.Closing(), b.cur, w.start, w.end, w.orig
    ensures Emitted'(b, lp, OutWhile(b.lsSlot, w.cond, w.val, p, x), s0, lp.end.refs, DivOf(lp), active)
    ensures b.Outer() == w.block.next && b.cur == w.orig && Inside(b, lp, end)
  {
    hide Chained, AllNear, InReach, Appended, EndRefs, Patch, GenBranch, Again, OutWhile, Resolve, Disjoint;
    ghost var q := Again(b.lsSlot, w.cond, w.val, p.tr, x.ctx.tr);
    ghost var s2, top, l := b.View(), w.start.target, lp.end;
    ghost var done := WhileEnd(b, w);
    LoopDone(b.lsSlot, w.cond, w.val, s0, s1, s2, done, p, x, top, lp.start.target, l.refs, l.lastForwardRef);
    JoinNothing(DivOf(lp));
  }

  lemma WhileParts(ls: nat, cond: Cond, val: Val, p: Piece, x: Out)
    ensures var q := Again(ls, cond, val, p.tr, x.ctx.tr);
            var inner := p.code + x.code + q.code;
            OutWhile(ls, cond, val, p, x)
              == Out(Resolve(inner, |inner|, |p.code|), Ctx(Join(Join(p.tr, x.div), q.tr), x.ctx.ifLs, false), IDLE,
                     x.ok)
  {
    hide GenBranch, Resolve;
    var w := LoopWait(ls, p, x);
    var q := GenBranch(ls, Start, cond, val, w.tr);
    assert p.code + x.code + w.code + q.code == p.code + x.code + (w.code + q.code);
  }

  lemma AgainHasNoEnds(ls: nat, cond: Cond, val: Val, head: Ls, tr: Ls, at: nat)
    ensures EndRefs(Again(ls, cond, val, head, tr).code, at) == []
  {
    hide EndRefs, GenBranch;
    var w := WaitIf(ls, tr.loads - head.loads != {}, tr);
    EndRefsConcat(w.code, GenBranch(ls, Start, cond, val, w.tr).code, at);
    WaitHasNoEnds(ls, tr.loads - head.loads != {}, tr, at);
    StartHasNoEnds(ls, cond, val, w.tr, at + |w.code|);
  }

  method EmitWhile(b: Builder, s: Stmt, lp: Loop, ghost brk: bool, ghost cont: bool, ghost end: int)
    requires s.While?
    requires Ready(b, lp, Gen(b.lsSlot, s, b.Ctx(), lp.origCopy), end) && WellFormed(s, brk, cont)
    requires Fits(b.lsSlot, s, b.Ctx(), lp.origCopy, |b.View()|, end, lp.start.target)
    modifies b`instrs, b`stack, b`cur, b`pendingMaybes, b.pending, b.pending.block, b.pending.endLabel,
             b.pending.lsState,
             b.cur, lp.start, lp.end, lp.orig
    ensures Emitted'(b, lp, Gen(b.lsSlot, s, old(b.Ctx()), lp.origCopy), old(b.View()), old(lp.end.refs),
                     old(DivOf(lp)), old(b.ActiveRefs()))
    ensures b.Outer() == old(b.Outer()) && b.cur == old(b.cur) && Inside(b, lp, end)
    ensures lp.start.target == old(lp.start.target)
    ensures OnlyOwn(b)
    ensures Adds(b.pendingMaybes, old(b.pendingMaybes),
                 Kept(b.lsSlot, s, old(b.Ctx()), lp.origCopy, |old(b.View())|, lp.start.target))
    decreases s, 0
  {
    hide Gen, Fits, WellFormed, OutWhile, Appended, Chained, AllNear, InReach, EndRefs, Patch, GenBranch, Again,
         Disjoint, Kept, KeptCases, Adds;
    ghost var ls, g, head, s0 := b.lsSlot, b.Ctx(), lp.origCopy, b.View();
    ghost var p := Entry(ls, s.cond, s.val, g.tr);
    ghost var x := Gen(ls, s.body, Ctx(p.tr, g.ifLs, false), p.tr);
    ghost var q := Again(ls, s.cond, s.val, p.tr, x.ctx.tr);
    ghost var stop := |s0| + |p.code| + |x.code| + |q.code|;
    WhileReach(ls, s, g, head, |s0|, brk, cont, end, lp.start.target);
    KeptWhile(ls, s, g, head, |s0|, lp.start.target);
    var w := OpenLoop(b, s.cond, s.val, lp, p, x, stop, end);
    ghost var s1 := b.View();
    AppendedSize(s1, s0, p.code, |s0| + |p.code|);
    ghost var l := lp.end;
    ChainedAppended(s1, s0, p.code, |s0| + |p.code|, l.refs, l.lastForwardRef);
    EmitBody(b, s.body, w, lp, p, x, s0, end, old(b.ActiveRefs()));
  }

  /** The body of a loop that has been opened, and the way round. */
  method EmitBody(b: Builder, body: Stmt, w: Loop, lp: Loop, ghost p: Piece, ghost x: Out, ghost s0: seq<Instr>,
                  ghost end: int, ghost active: seq<nat>)
    requires x == Gen(b.lsSlot, body, b.Ctx(), p.tr) && WellFormed(body, true, true)
    requires var q := Again(b.lsSlot, w.cond, w.val, p.tr, x.ctx.tr).code;
             var stop := |b.View()| + |x.code| + |q|;
             && Ready(b, w, x, stop) && Fits(b.lsSlot, body, b.Ctx(), p.tr, |b.View()|, stop, w.start.target)
             && InReach(q, |b.View()| + |x.code|, stop, w.start.target)
    requires !b.Active() && b.stack == w.block && w.block.next != null && w.block.next != b.pending.block
    requires w.block != b.pending.block
    requires b.cur == w.lsState && w.orig != b.cur && w.orig != b.pending.lsState && w.orig.now == w.origCopy == p.tr
    requires w.orig != lp.orig && w.end != lp.end && w.start != lp.start && w.end != lp.start && w.start != lp.end
    requires lp.orig != b.cur
    requires Appended(b.View(), s0, p.code, |s0| + |p.code|) && w.start.target == |s0| + |p.code|
    requires w.end.refs == EndRefs(p.code, |s0|) && Chained(s0, lp.end.refs, lp.end.lastForwardRef)
    requires Inside(b, lp, end)
    modifies b`instrs, b`stack, b`cur, b`pendingMaybes, b.pending, b.pending.block, b.pending.endLabel,
             b.pending.lsState,
             b.cur, w.start, w.end, w.orig
    ensures Emitted'(b, lp, OutWhile(b.lsSlot, w.cond, w.val, p, x), s0, lp.end.refs, DivOf(lp), active)
    ensures b.Outer() == w.block.next && b.cur == w.orig && Inside(b, lp, end)
    ensures OnlyOwn(b)
    ensures Adds(b.pendingMaybes, old(b.pendingMaybes),
                 Kept(b.lsSlot, body, old(b.Ctx()), p.tr, |old(b.View())|, |s0| + |p.code|))
    decreases body, 2
  {
    hide Gen, Fits, WellFormed, OutWhile, Appended, Chained, AllNear, InReach, EndRefs, Patch, GenBranch, Again,
         Disjoint, Kept, KeptCases, Adds;
    ghost var s1, l := b.View(), lp.end;
    AppendedSize(s1, s0, p.code, |s0| + |p.code|);
    EmitStmt(b, body, w, true, true, |s1| + |x.code| + |Again(b.lsSlot, w.cond, w.val, p.tr, x.ctx.tr).code|);
    AppendedSize(b.View(), s1, x.code, w.start.target);
    ChainedAppended(s1, s0, p.code, |s0| + |p.code|, l.refs, l.lastForwardRef);
    ChainedAppended(b.View(), s1, x.code, |s0| + |p.code|, l.refs, l.lastForwardRef);
    CloseLoop(b, w, lp, p, x, s0, s1, end, active);
  }

  lemma WhileReach(ls: nat, s: Stmt, g: Ctx, head: Ls, at: nat, brk: bool, cont: bool, end: int, start: int)
    requires s.While? && WellFormed(s, brk, cont) && Fits(ls, s, g, head, at, end, start)
    ensures var p := Entry(ls, s.cond, s.val, g.tr);
            var g1 := Ctx(p.tr, g.ifLs, false);
            var x := Gen(ls, s.body, g1, p.tr);
            var q := Again(ls, s.cond, s.val, p.tr, x.ctx.tr);
            var top := at + |p.code|;
            var stop := top + |x.code| + |q.code|;
            && WellFormed(s.body, true, true) && Gen(ls, s, g, head) == OutWhile(ls, s.cond, s.val, p, x)
            && OutWhile(ls, s.cond, s.val, p, x).ok == x.ok
            && InReach(p.code, at, stop, top) && Fits(ls, s.body, g1, p.tr, top, stop, top)
            && InReach(q.code, top + |x.code|, stop, top)
  {
    hide GenBranch, Again, InReach;
  }

  // ----- Straight-line code, breaks and continues ------------------------------------------------------

  /** A statement that only appends to the block, without a break, leaves everything else in order. */
  lemma Plainly(b: Builder, lp: Loop, o: Out, before: seq<Instr>, refs: seq<nat>, last: int, div: Ls, active: seq<nat>,
                end: int)
    requires b.Valid() && b.Ctx() == o.ctx && Appended(b.View(), before, o.code, lp.start.target)
    requires EndRefs(o.code, |before|) == [] && Chained(before, refs, last) && AllNear(refs, end)
    requires lp.end.refs == refs && lp.end.lastForwardRef == last && lp.end.target == NO_POS
    requires lp.end != b.pending.endLabel
    requires lp.orig != null && lp.orig != b.pending.lsState && lp.start != lp.end && lp.start != b.pending.endLabel
    requires lp.start.target != NO_POS
    requires lp.orig.now == Join(div, o.div) && (b.ActiveRefs() == [] || b.ActiveRefs() == active)
    ensures Emitted'(b, lp, o, before, refs, div, active) && Inside(b, lp, end)
  {
    hide Appended, Chained, EndRefs, Patch, AllNear;
    ChainedAppended(b.View(), before, o.code, lp.start.target, refs, last);
  }

  method EmitSimple(b: Builder, s: Stmt, lp: Loop, ghost brk: bool, ghost cont: bool, ghost end: int)
    requires s.Skip? || s.Op? || s.FlushLoads? || s.FlushStores?
    requires Ready(b, lp, Gen(b.lsSlot, s, b.Ctx(), lp.origCopy), end) && WellFormed(s, brk, cont)
    requires Fits(b.lsSlot, s, b.Ctx(), lp.origCopy, |b.View()|, end, lp.start.target)
    modifies b`instrs, b`stack, b`cur, b`pendingMaybes, b.pending, b.pending.block, b.pending.endLabel,
             b.pending.lsState,
             b.cur, lp.start, lp.end, lp.orig
    ensures Emitted'(b, lp, Gen(b.lsSlot, s, old(b.Ctx()), lp.origCopy), old(b.View()), old(lp.end.refs),
                     old(DivOf(lp)), old(b.ActiveRefs()))
    ensures b.Outer() == old(b.Outer()) && b.cur == old(b.cur) && Inside(b, lp, end)
    ensures lp.start.target == old(lp.start.target)
    ensures OnlyOwn(b)
    ensures Adds(b.pendingMaybes, old(b.pendingMaybes),
                 Kept(b.lsSlot, s, old(b.Ctx()), lp.origCopy, |old(b.View())|, lp.start.target))
  {
    hide Gen, Fits, Appended, Chained, AllNear, InReach, EndRefs, Patch, GenOp, Emitted', WaitIf, Kept, KeptCases, Adds;
    ghost var ls, g, head, s0, l, div, active, top := b.lsSlot, b.Ctx(), lp.origCopy, b.View(), lp.end, DivOf(lp),
        b.ActiveRefs(), lp.start.target;
    ghost var o := Gen(ls, s, g, head);
    SimpleIs(ls, s, g, head, |s0|);
    match s {
      case Op(i) => b.EmitOp(i);
      case FlushLoads => b.FlushLoads();
      case FlushStores => b.FlushStores();
      case _ =>
    }
    PatchNothing(b.instrs, |b.instrs|);
    if !s.Op? {
      Waited(s0, b.View(), ls, if s.Skip? then false else if s.FlushLoads? then g.tr.loads != {} else g.tr.stores, g.tr,
             top);
    }
    JoinNothing(div);
    Plainly(b, lp, o, s0, l.refs, l.lastForwardRef, div, active, end);
    KeptNothing(ls, s, g, head, |s0|, top);
    AddsNothing(b.pendingMaybes);
  }

  lemma SimpleIs(ls: nat, s: Stmt, g: Ctx, head: Ls, at: nat)
    requires s.Skip? || s.Op? || s.FlushLoads? || s.FlushStores?
    ensures var o := Gen(ls, s, g, head);
            && EndRefs(o.code, at) == [] && o.div == IDLE
            && match s
               case Op(i) => var p := GenOp(ls, i, g.tr); o.code == p.code && o.ctx == g.(tr := p.tr, pend := false)
               case _ =>
                 var need := if s.Skip? then false else if s.FlushLoads? then g.tr.loads != {} else g.tr.stores;
                 o.code == WaitIf(ls, need, g.tr).code && o.ctx == if need then g.(tr := IDLE, pend := false) else g
  {
    hide EndRefs, GenOp;
    match s
    case Op(i) => OpHasNoEnds(ls, i, g.tr, at);
    case Skip => WaitHasNoEnds(ls, false, g.tr, at);
    case FlushLoads => WaitHasNoEnds(ls, g.tr.loads != {}, g.tr, at);
    case FlushStores => WaitHasNoEnds(ls, g.tr.stores, g.tr, at);
  }

  method EmitJump(b: Builder, s: Stmt, lp: Loop, ghost brk: bool, ghost cont: bool, ghost end: int)
    requires s.BreakIf? || s.ContinueIf?
    requires Ready(b, lp, Gen(b.lsSlot, s, b.Ctx(), lp.origCopy), end) && WellFormed(s, brk, cont)
    requires Fits(b.lsSlot, s, b.Ctx(), lp.origCopy, |b.View()|, end, lp.start.target)
    modifies b`instrs, b`stack, b`cur, b`pendingMaybes, b.pending, b.pending.block, b.pending.endLabel,
             b.pending.lsState,
             b.cur, lp.start, lp.end, lp.orig
    ensures Emitted'(b, lp, Gen(b.lsSlot, s, old(b.Ctx()), lp.origCopy), old(b.View()), old(lp.end.refs),
                     old(DivOf(lp)), old(b.ActiveRefs()))
    ensures b.Outer() == old(b.Outer()) && b.cur == old(b.cur) && Inside(b, lp, end)
    ensures lp.start.target == old(lp.start.target)
    ensures OnlyOwn(b)
    ensures Adds(b.pendingMaybes, old(b.pendingMaybes),
                 Kept(b.lsSlot, s, old(b.Ctx()), lp.origCopy, |old(b.View())|, lp.start.target))
  {
    hide Chained, AllNear, InReach, Appended, EndRefs, Patch, GenBranch, Again, Kept, KeptCases, Adds;
    JumpIs(b.lsSlot, s, b.Ctx(), lp.origCopy);
    KeptNothing(b.lsSlot, s, b.Ctx(), lp.origCopy, |b.View()|, lp.start.target);
    AddsNothing(b.pendingMaybes);
    if s.BreakIf? {
      ConditionalBreak(b, lp, s.cond, s.val, end);
    } else {
      ConditionalContinue(b, lp, s.cond, s.val, end);
    }
  }

  lemma KeptNothing(ls: nat, s: Stmt, g: Ctx, head: Ls, at: nat, start: int)
    requires s.Skip? || s.Op? || s.FlushLoads? || s.FlushStores? || s.BreakIf? || s.ContinueIf?
    ensures Kept(ls, s, g, head, at, start) == []
  {
  }

  lemma JumpIs(ls: nat, s: Stmt, g: Ctx, head: Ls)
    requires s.BreakIf? || s.ContinueIf?
    ensures var q := if s.BreakIf? then GenBranch(ls, End, s.cond, s.val, g.tr)
            else Again(ls, s.cond, s.val, head, g.tr);
            Gen(ls, s, g, head) == Out(q.code, Ctx(q.tr, g.ifLs, false), q.tr, true)
  {
    hide GenBranch;
  }

  method EmitSeq(b: Builder, s: Stmt, lp: Loop, ghost brk: bool, ghost cont: bool, ghost end: int)
    requires s.Seq?
    requires Ready(b, lp, Gen(b.lsSlot, s, b.Ctx(), lp.origCopy), end) && WellFormed(s, brk, cont)
    requires Fits(b.lsSlot, s, b.Ctx(), lp.origCopy, |b.View()|, end, lp.start.target)
    modifies b`instrs, b`stack, b`cur, b`pendingMaybes, b.pending, b.pending.block, b.pending.endLabel,
             b.pending.lsState,
             b.cur, lp.start, lp.end, lp.orig
    ensures Emitted'(b, lp, Gen(b.lsSlot, s, old(b.Ctx()), lp.origCopy), old(b.View()), old(lp.end.refs),
                     old(DivOf(lp)), old(b.ActiveRefs()))
    ensures b.Outer() == old(b.Outer()) && b.cur == old(b.cur) && Inside(b, lp, end)
    ensures lp.start.target == old(lp.start.target)
    ensures OnlyOwn(b)
    ensures Adds(b.pendingMaybes, old(b.pendingMaybes),
                 Kept(b.lsSlot, s, old(b.Ctx()), lp.origCopy, |old(b.View())|, lp.start.target))
    decreases s, 0
  {
    hide Gen, Fits, WellFormed, Appended, Chained, AllNear, InReach, EndRefs, Patch, Kept, KeptCases, Adds;
    ghost var ls, g, head, s0, top := b.lsSlot, b.Ctx(), lp.origCopy, b.View(), lp.start.target;
    ghost var x := Gen(ls, s.first, g, head);
    ghost var y := Gen(ls, s.second, x.ctx, head);
    SeqParts(ls, s, g, head, |s0|, brk, cont, end, top);
    ghost var ms := b.pendingMaybes;
    EmitStmt(b, s.first, lp, brk, cont, end);
    ghost var s1, mid := b.View(), b.pendingMaybes;
    AppendedSize(s1, s0, x.code, top);
    EmitStmt(b, s.second, lp, brk, cont, end);
    AddsMore(ms, mid, b.pendingMaybes, Kept(ls, s.first, g, head, |s0|, top),
             Kept(ls, s.second, x.ctx, head, |s0| + |x.code|, top));
    AppendedTwice(s0, s1, b.View(), x.code, y.code, top);
    EndRefsConcat(x.code, y.code, |s0|);
    JoinAssociates(old(DivOf(lp)), x.div, y.div);
  }

  lemma SeqParts(ls: nat, s: Stmt, g: Ctx, head: Ls, at: nat, brk: bool, cont: bool, end: int, start: int)
    requires s.Seq? && WellFormed(s, brk, cont) && Fits(ls, s, g, head, at, end, start)
    ensures var x := Gen(ls, s.first, g, head);
            var y := Gen(ls, s.second, x.ctx, head);
            && WellFormed(s.first, brk, cont) && WellFormed(s.second, brk, cont)
            && Kept(ls, s, g, head, at, start) == Kept(ls, s.second, x.ctx, head, at + |x.code|, start)
                   + Kept(ls, s.first, g, head, at, start)
            && Gen(ls, s, g, head) == Out(x.code + y.code, y.ctx, Join(x.div, y.div), x.ok && y.ok)
            && Fits(ls, s.first, g, head, at, end, start) && Fits(ls, s.second, x.ctx, head, at + |x.code|, end, start)
  {
  }

  // ----- Maybe blocks -------------------------------------------------------------------------------

  /** Without a break there is no branch to the end of the loop. */
  lemma NoBreaks(ls: nat, s: Stmt, cont: bool, g: Ctx, head: Ls, at: nat)
    requires WellFormed(s, false, cont)
    ensures EndRefs(Gen(ls, s, g, head).code, at) == []
  {
    Tidy.CodeExits(ls, s, false, cont, g, head);
    NoEndRefs(Gen(ls, s, g, head).code, at);
  }

  lemma OneEmit(x: Item, at: nat)
    requires !x.ToEnd?
    ensures EndRefs([x], at) == []
  {
    NoEndRefs([x], at);
  }

  lemma TestHasNoEnds(ls: nat, v: Reg, scratch: Reg, id: Word, n: nat, tr: Ls, view: set<Reg>, at: nat)
    ensures EndRefs(GenTest(ls, v, scratch, id, n, tr, view).code, at) == []
  {
    NoEndRefs(GenTest(ls, v, scratch, id, n, tr, view).code, at);
  }

  lemma MaybeParts(ls: nat, patched: bool, orig: Ls, x: Out, at: nat)
    ensures var w := MaybeWait(ls, orig, x);
            var o := OutMaybe(ls, patched, orig, x);
            && o.code == (if patched then x.code + w.code else Blank(|x.code + w.code|, orig.loads))
            && (EndRefs(x.code, at) == [] ==> EndRefs(o.code, at) == [])
  {
    hide EndRefs;
    var w := MaybeWait(ls, orig, x);
    EndRefsConcat(x.code, w.code, at);
    WaitHasNoEnds(ls, x.ctx.tr.loads - orig.loads != {} || (x.ctx.tr.stores && !orig.stores), x.ctx.tr, at + |x.code|);
    NoEndRefs(Blank(|x.code + w.code|, orig.loads), at);
  }

  /** The place of a maybe block, filled in or left blank. */
  lemma MaybeCode(s0: seq<Instr>, s1: seq<Instr>, x: seq<Item>, ls: nat, need: bool, tr: Ls, loads: set<Reg>,
                  start: int)
    requires Appended(s1, s0, x, start)
    ensures var w := WaitIf(ls, need, tr).code;
            var kept := s1[|s0|..] + if need then [Wait({ls})] else [];
            && |s0| <= |s1| && |kept| == |x + w|
            && Appended(s0 + Nops(|kept|), s0, Blank(|x + w|, loads), start)
            && Appended(Chunks.Overwrite(s0 + Nops(|kept|), |s0|, kept), s0, x + w, start)
            && (EndRefs(x, |s0|) == [] ==> kept == Placed(x + w, |s0|, start))
  {
    var w := WaitIf(ls, need, tr).code;
    var s2 := s1 + if need then [Wait({ls})] else [];
    var kept := s1[|s0|..] + if need then [Wait({ls})] else [];
    Waited(s1, s2, ls, need, tr, start);
    AppendedTwice(s0, s1, s2, x, w, start);
    assert Chunks.Overwrite(s0 + Nops(|kept|), |s0|, kept) == s2;
    WaitHasNoEnds(ls, need, tr, |s0| + |x|);
    EndRefsConcat(x, w, |s0|);
    if EndRefs(x, |s0|) == [] { AppendedPlaced(s2, s0, x + w, start); }
  }

  /** Without branches to the end, the code is in place as it stands. */
  lemma AppendedPlaced(now: seq<Instr>, before: seq<Instr>, code: seq<Item>, start: int)
    requires Appended(now, before, code, start) && EndRefs(code, |before|) == []
    ensures now[|before|..] == Placed(code, |before|, start)
  {
    forall i | 0 <= i < |code| ensures now[|before| + i] == Placed(code, |before|, start)[i] {
      EndRefsAt(code, |before|, |before| + i);
      assert Matches(now[|before| + i], code[i], |before| + i, start);
    }
  }

  method EmitMaybe(b: Builder, s: Stmt, lp: Loop, ghost brk: bool, ghost cont: bool, ghost end: int)
    requires s.Maybe?
    requires Ready(b, lp, Gen(b.lsSlot, s, b.Ctx(), lp.origCopy), end) && WellFormed(s, brk, cont)
    requires Fits(b.lsSlot, s, b.Ctx(), lp.origCopy, |b.View()|, end, lp.start.target)
    modifies b`instrs, b`stack, b`cur, b`pendingMaybes, b.pending, b.pending.block, b.pending.endLabel,
             b.pending.lsState,
             b.cur, lp.start, lp.end, lp.orig
    ensures Emitted'(b, lp, Gen(b.lsSlot, s, old(b.Ctx()), lp.origCopy), old(b.View()), old(lp.end.refs),
                     old(DivOf(lp)), old(b.ActiveRefs()))
    ensures b.Outer() == old(b.Outer()) && b.cur == old(b.cur) && Inside(b, lp, end)
    ensures lp.start.target == old(lp.start.target)
    ensures OnlyOwn(b)
    ensures Adds(b.pendingMaybes, old(b.pendingMaybes),
                 Kept(b.lsSlot, s, old(b.Ctx()), lp.origCopy, |old(b.View())|, lp.start.target))
    decreases s, 0
  {
    hide Gen, Fits, WellFormed, OutMaybe, Appended, Chained, AllNear, InReach, EndRefs, Patch, Kept, KeptCases, Adds;
    ghost var ls, g, head, s0, top, l := b.lsSlot, b.Ctx(), lp.origCopy, b.View(), lp.start.target, lp.end;
    ghost var x := Gen(ls, s.body, g.(pend := false), head);
    ghost var w := MaybeWait(ls, g.tr, x);
    MaybeReach(ls, s, g, head, |s0|, brk, cont, end, top);
    var st := new MaybeState(b.cur);
    MaybeStart(b, st);
    ghost var ms := b.pendingMaybes;
    EmitStmt(b, s.body, lp, false, cont, end);
    ghost var s1, mid := b.View(), b.pendingMaybes;
    PatchNothing(b.instrs, |b.instrs|);
    AppendedSize(s1, s0, x.code, top);
    ghost var last := l.lastForwardRef;
    SameChain(s0, s1, old(l.refs), l.refs, old(l.lastForwardRef), last);
    CloseMaybe(b, st, s.patched, g.tr, x, s0, top);
    AddsMore(ms, mid, b.pendingMaybes, Kept(ls, s.body, g.(pend := false), head, |s0|, top),
             [Handle(|s0|, Placed(x.code + w.code, |s0|, top))]);
    Plainly(b, lp, OutMaybe(ls, s.patched, g.tr, x), s0, l.refs, last, old(DivOf(lp)), old(b.ActiveRefs()), end);
  }

  lemma SameChain(a: seq<Instr>, b: seq<Instr>, refs: seq<nat>, now: seq<nat>, x: int, y: int)
    requires Chained(a, refs, x) && Chained(b, now, y) && now == refs
    ensures x == y
  {
  }

  /** The maybe block is closed, and patched in right away if it is wanted. */
  method CloseMaybe(b: Builder, st: MaybeState, patched: bool, ghost orig: Ls, ghost x: Out, ghost s0: seq<Instr>,
                    ghost start: int)
    requires b.Valid() && b.stack == st.block && st.block != b.pending.block && st.block.next != null
    requires st.block.next != b.pending.block
    requires st.patchPos == |s0| && b.cur == st.lsState && st.orig != b.cur && st.orig != b.pending.lsState
    requires st.orig.now == orig
    requires b.cur.now == x.ctx.tr && Appended(b.instrs, s0, x.code, start) && EndRefs(x.code, |s0|) == []
    modifies b`instrs, b`stack, b`cur, b`pendingMaybes, b.cur
    ensures b.Valid() && !b.Active() && b.stack == st.block.next && b.cur == st.orig
    ensures Appended(b.View(), s0, if patched then x.code + MaybeWait(b.lsSlot, orig, x).code
                                   else Blank(|x.code + MaybeWait(b.lsSlot, orig, x).code|, orig.loads), start)
    ensures OnlyOwn(b)
    ensures Adds(b.pendingMaybes, old(b.pendingMaybes),
                 [Handle(|s0|, Placed(x.code + MaybeWait(b.lsSlot, orig, x).code, |s0|, start))])
  {
    hide Appended, Patch, Chained, AllNear, EndRefs, Placed;
    ghost var need := x.ctx.tr.loads - orig.loads != {} || (x.ctx.tr.stores && !orig.stores);
    MaybeCode(s0, b.instrs, x.code, b.lsSlot, need, x.ctx.tr, orig.loads, start);
    AppendedPrefix(b.instrs, s0, x.code, start);
    var m := MaybeEnd(b, st);
    if patched {
      PatchMaybe(b, m, 0);
    }
    PatchNothing(b.instrs, |b.instrs|);
  }

  lemma MaybeReach(ls: nat, s: Stmt, g: Ctx, head: Ls, at: nat, brk: bool, cont: bool, end: int, start: int)
    requires s.Maybe? && WellFormed(s, brk, cont) && Fits(ls, s, g, head, at, end, start)
    ensures var g1 := g.(pend := false);
            var x := Gen(ls, s.body, g1, head);
            var o := OutMaybe(ls, s.patched, g.tr, x);
            && WellFormed(s.body, false, cont) && Fits(ls, s.body, g1, head, at, end, start) && Gen(ls, s, g, head) == o
            && o.ctx == Ctx(g.tr, x.ctx.ifLs, false) && o.div == x.div && o.ok == (x.ok && !x.ctx.pend)
            && Kept(ls, s, g, head, at, start)
               == [Handle(at, Placed(x.code + MaybeWait(ls, g.tr, x).code, at, start))]
                       + Kept(ls, s.body, g1, head, at, start)
            && |o.code| == |x.code| + |MaybeWait(ls, g.tr, x).code|
            && EndRefs(x.code, at) == [] && EndRefs(o.code, at) == []
            && var w := MaybeWait(ls, g.tr, x).code;
               o.code == if s.patched then x.code + w else Blank(|x.code + w|, g.tr.loads)
  {
    hide EndRefs;
    var g1 := g.(pend := false);
    NoBreaks(ls, s.body, cont, g1, head, at);
    MaybeParts(ls, s.patched, g.tr, Gen(ls, s.body, g1, head), at);
  }

  // ----- Matches ------------------------------------------------------------------------------------

  /** Items that put the same instruction in the same place. */
  predicate SameInstrs(a: seq<Item>, b: seq<Item>) {
    |a| == |b| && forall i :: 0 <= i < |a| ==> a[i] == b[i] || (a[i].Emit? && b[i].Emit? && a[i].i == b[i].i)
  }

  lemma AppendedSame(now: seq<Instr>, before: seq<Instr>, a: seq<Item>, b: seq<Item>, start: int)
    requires Appended(now, before, a, start) && SameInstrs(a, b)
    ensures Appended(now, before, b, start)
  {
    forall i | 0 <= i < |b| ensures Matches(now[|before| + i], b[i], |before| + i, start) {
      assert Matches(now[|before| + i], a[i], |before| + i, start);
    }
  }

  lemma SameConcat(a: seq<Item>, b: seq<Item>, x: seq<Item>)
    requires SameInstrs(a, b)
    ensures SameInstrs(a + x, b + x)
  {
  }

  /** The test and body of a case, once the next case is known to be `extra` instructions behind the body. */
  lemma CaseCode(s0: seq<Instr>, s1: seq<Instr>, s2: seq<Instr>, p: seq<Item>, test: seq<Item>, x: seq<Item>,
                 extra: nat, start: int)
    requires Appended(s1, s0, p, start) && Appended(s2, s1, x, start)
    requires SameInstrs(Resolve(p, |p| + |x| + extra, start - |s0|), test)
    ensures Appended(Patch(s2, EndRefs(p, |s0|), |s2| + extra), s0, test + x, start)
  {
    hide Appended, EndRefs, Patch, Resolve, SameInstrs;
    SetEnds(s0, s1, s2, p, x, extra, start, start);
    SameConcat(Resolve(p, |p| + |x| + extra, start - |s0|), test, x);
    AppendedSame(Patch(s2, EndRefs(p, |s0|), |s2| + extra), s0, Resolve(p, |p| + |x| + extra, start - |s0|) + x,
                 test + x, start);
  }

  lemma PatchMore(instrs: seq<Instr>, refs: seq<nat>, n: nat, target: nat)
    ensures Patch(Patch(instrs, [n], target), refs, target) == Patch(instrs, refs + [n], target)
  {
  }

  /** The branch out of a case and the code behind it, once the end of the match is known. */
  lemma LeaveCode(s0: seq<Instr>, mid: seq<Instr>, z: seq<Instr>, loads: set<Reg>, code: seq<Item>, extra: nat,
                  refs: seq<nat>, start: int)
    requires Appended(mid, s0, [ToEnd(Always, 0, loads)], start) && Appended(z, mid, code, start)
    requires forall k :: 0 <= k < |refs| ==> refs[k] < |s0|
    ensures var finish := |z| + extra;
            Appended(Patch(z, refs + [|s0|], finish), Patch(s0, refs, finish),
                     [Emit(Branch(|code| + extra, Always, 0), loads)] + code, start)
  {
    hide Appended, EndRefs, Patch;
    var away, finish := ToEnd(Always, 0, loads), |z| + extra;
    OneRef(away, |s0|, 0, 0);
    SetEnds(s0, mid, z, [away], code, extra, start, start);
    assert Resolve([away], 1 + |code| + extra, start - |s0|) == [Emit(Branch(|code| + extra, Always, 0), loads)];
    PatchInFront(Patch(z, [|s0|], finish), s0, [Emit(Branch(|code| + extra, Always, 0), loads)] + code, start, refs,
                 finish);
    PatchMore(z, refs, |s0|, finish);
  }

  /** The test of a case as it is emitted, and as it is once the next case is known. */
  lemma TestIs(ls: nat, v: Reg, scratch: Reg, id: Word, k: nat, tr: Ls, view: set<Reg>, s: int)
    requires v != scratch
    ensures var p := Compare(ls, v, scratch, id, tr);
            var t := GenTest(ls, v, scratch, id, k, tr, view);
            t.tr == p.tr && SameInstrs(Resolve(p.code, |p.code| + k, s), t.code)
  {
    var p := Compare(ls, v, scratch, id, tr);
    var t := GenTest(ls, v, scratch, id, k, tr, view);
    if id == 0 {
      assert p == Branch32(ls, End, NEqual, v, tr);
    } else {
      var sub := AddImm32(scratch, v, 0 - id);
      assert Operands(sub) == [{scratch}, {v}];
      var q := GenOp(ls, sub, tr);
      assert scratch !in q.tr.loads by {
        if scratch in tr.loads { assert scratch in Operands(sub)[0] * tr.loads; }
      }
      assert p.code == q.code + [ToEnd(NEqual, scratch, q.tr.loads)];
    }
  }

  /** A match and the loop around it share nothing. */
  ghost predicate Apart(m: Match, lp: Loop)
    reads m, lp
  {
    && m.breakLabel != lp.start && m.breakLabel != lp.end && m.nextCase != lp.start && m.nextCase != lp.end
    && lp.orig != m.caseState && lp.orig != m.lsState && lp.orig != m.orig
  }

  /** All labels of the match and of the loop around it are in order. */
  ghost predicate Labelled(b: Builder, m: Match, lp: Loop, next: int, finish: int, end: int)
    reads b, b.pending, b.pending.block, b.pending.endLabel, m, m.breakLabel, m.nextCase, lp, lp.start, lp.end
  {
    && Waiting(b, m, next, finish) && Inside(b, lp, end) && Apart(m, lp)
    && Disjoint(m.breakLabel.refs, lp.end.refs) && Disjoint(m.nextCase.refs, lp.end.refs)
  }

  /** Where the next case can be opened. */
  ghost predicate Between(b: Builder, m: Match, lp: Loop, next: int, finish: int, end: int)
    reads b, b.pending, b.pending.block, b.pending.endLabel, m, m.caseBlock, m.breakLabel, m.nextCase, lp, lp.start,
          lp.end
  {
    && b.Valid() && Labelled(b, m, lp, next, finish, end) && !m.defaultEmitted
    && if m.nextCase.refs == [] then b.stack == m.block && b.cur == m.orig && m.breakLabel.Clear() && m.nextCase.Clear()
       else b.Outer() == m.caseBlock && m.caseBlock.next == m.block && b.cur == m.caseState
  }

  /** What the call that opens a case does not touch. */
  lemma LabelsDiffer(b: Builder, m: Match, lp: Loop, next: int, finish: int, end: int)
    requires Labelled(b, m, lp, next, finish, end)
    ensures Inside(b, lp, end) && Apart(m, lp) && Own(b, m)
    ensures Chained(b.View(), m.breakLabel.refs, m.breakLabel.lastForwardRef)
  {
    hide Patch, Chained, AllNear;
  }

  /** References of the loop survive the branch out of a case and the test of the next one. */
  lemma TestChain(s: seq<Instr>, mid: seq<Instr>, s1: seq<Instr>, first: bool, loads: set<Reg>, p: seq<Item>,
                  start: int, next: seq<nat>, breaks: seq<nat>, refs: seq<nat>, last: int)
    requires Chained(s, refs, last) && Disjoint(next, refs) && Disjoint(breaks, refs)
    requires if first then mid == s else Appended(mid, Patch(s, next, |s| + 1), [ToEnd(Always, 0, loads)], start)
    requires Appended(s1, mid, p, start) && forall k :: 0 <= k < |breaks| ==> breaks[k] < |s|
    ensures var more := if first then [] else breaks + [|s|];
            && Chained(s1, refs, last) && Disjoint(more, refs) && Disjoint(EndRefs(p, |mid|), refs)
            && Disjoint(EndRefs(p, |mid|), more)
  {
    hide Appended, EndRefs, Patch, Chained;
    ChainedBelow(s, refs, last);
    if !first {
      ChainedPatched(s, refs, last, next, |s| + 1);
      ChainedAppended(mid, Patch(s, next, |s| + 1), [ToEnd(Always, 0, loads)], start, refs, last);
      AppendedSize(mid, Patch(s, next, |s| + 1), [ToEnd(Always, 0, loads)], start);
    }
    ChainedAppended(s1, mid, p, start, refs, last);
    forall i: nat ensures i in EndRefs(p, |mid|) ==> i >= |mid| { EndRefsAt(p, |mid|, i); }
    assert forall i: nat :: i in EndRefs(p, |mid|) ==> i !in refs && (first || i !in breaks + [|s|]);
  }

  method OpenTest(b: Builder, m: Match, id: Word, lp: Loop, ghost p: Piece, ghost x: Out, ghost extra: nat,
                  ghost finish: int, ghost end: int)
    returns (ghost mid: seq<Instr>)
    requires Between(b, m, lp, |b.View()| + 1, finish, end) && lp.orig != b.cur
    requires lp.orig != null
    requires p == Compare(b.lsSlot, m.subject, m.scratch, id, b.cur.now) && x.ok
    requires var at := if m.nextCase.refs == [] then |b.View()| else |b.View()| + 1;
             && at + |p.code| + |x.code| <= end
             && InReach(p.code, at, at + |p.code| + |x.code| + extra, lp.start.target)
    requires m.nextCase.refs != [] ==> |b.View()| < finish && Near(|b.View()|, finish)
    modifies b`instrs, b`stack, b`cur, b.Closing(), b.cur, m.caseBlock, m.caseState, m.lsState, m.breakLabel, m.nextCase
    ensures Ready(b, lp, x, end) && !b.Active() && b.stack == m.caseBlock && m.caseBlock.next == m.block
    ensures b.View() == b.instrs
    ensures lp.end.refs == old(lp.end.refs) && lp.start.target == old(lp.start.target) && lp.orig != null
    ensures lp.orig.now == old(DivOf(lp))
    ensures b.pending.lsState.now == old(b.pending.lsState.now)
    ensures b.Ctx() == Ctx(m.orig.now, b.pending.lsState.now, false)
    ensures b.cur == m.caseState && m.caseState.now == m.orig.now
    ensures m.orig.now == if old(m.nextCase.refs) == [] then p.tr else old(m.orig.now)
    ensures Labelled(b, m, lp, |b.View()| + |x.code| + extra, finish, end) && !m.defaultEmitted
    ensures m.nextCase.refs == EndRefs(p.code, |mid|) && Appended(b.instrs, mid, p.code, lp.start.target)
    ensures if old(m.nextCase.refs) == [] then mid == old(b.View()) && m.breakLabel.refs == []
            && m.lsState.now == old(m.lsState.now)
            else
              && Appended(mid, Patch(old(b.View()), old(m.nextCase.refs), |old(b.View())| + 1),
                          [ToEnd(Always, 0, old(b.cur.now.loads))], lp.start.target)
              && m.breakLabel.refs == old(m.breakLabel.refs) + [|old(b.View())|]
              && m.lsState.now == Join(old(m.lsState.now), old(b.cur.now))
  {
    hide Chained, AllNear, InReach, Appended, EndRefs, Patch, Compare, Disjoint;
    ghost var s, first, loads, top, l := b.View(), m.nextCase.refs == [], b.cur.now.loads, lp.start.target, lp.end;
    ghost var next, breaks := m.nextCase.refs, m.breakLabel.refs;
    ChainedBelow(s, m.breakLabel.refs, m.breakLabel.lastForwardRef);
    mid := MatchCase(b, m, id, (if first then |s| else |s| + 1) + |p.code| + |x.code| + extra, finish, top);
    if !first { AppendedSize(mid, Patch(s, next, |s| + 1), [ToEnd(Always, 0, loads)], top); }
    AppendedSize(b.instrs, mid, p.code, top);
    TestChain(s, mid, b.instrs, first, loads, p.code, top, next, breaks, l.refs, l.lastForwardRef);

  }

  lemma BodyChain(s1: seq<Instr>, x: seq<Item>, own: seq<nat>, last: int, refs: seq<nat>)
    requires Chained(s1, own, last) && Disjoint(own, refs)
    ensures Disjoint(own, refs + EndRefs(x, |s1|))
  {
    hide EndRefs;
    forall i | i in own ensures i !in refs + EndRefs(x, |s1|) {
      assert exists k :: 0 <= k < |own| && own[k] == i;
      EndRefsAt(x, |s1|, i);
    }
  }

  /** The body of a case. */
  method EmitInCase(b: Builder, m: Match, body: Stmt, lp: Loop, ghost x: Out, ghost brk: bool, ghost cont: bool,
                    ghost next: int, ghost finish: int, ghost end: int)
    requires WellFormed(body, brk, cont) && x == Gen(b.lsSlot, body, b.Ctx(), lp.origCopy)
    requires Ready(b, lp, x, end) && !b.Active() && b.stack == m.caseBlock && m.caseBlock.next == m.block
    requires b.cur == m.caseState
    requires Labelled(b, m, lp, next, finish, end)
    requires Fits(b.lsSlot, body, b.Ctx(), lp.origCopy, |b.View()|, end, lp.start.target)
    modifies b`instrs, b`stack, b`cur, b`pendingMaybes, b.pending, b.pending.block, b.pending.endLabel,
             b.pending.lsState,
             b.cur, lp.start, lp.end, lp.orig
    ensures Emitted'(b, lp, x, old(b.View()), old(lp.end.refs), old(DivOf(lp)), [])
    ensures b.Outer() == m.caseBlock && m.caseBlock.next == m.block && b.cur == m.caseState
    ensures Labelled(b, m, lp, next, finish, end) && lp.start.target == old(lp.start.target)
    ensures m.nextCase.refs == old(m.nextCase.refs) && m.breakLabel.refs == old(m.breakLabel.refs)
    ensures m.orig.now == old(m.orig.now) && m.lsState.now == old(m.lsState.now)
    ensures OnlyOwn(b)
    ensures Adds(b.pendingMaybes, old(b.pendingMaybes),
                 Kept(b.lsSlot, body, old(b.Ctx()), lp.origCopy, |old(b.View())|, lp.start.target))
    decreases body, 2
  {
    hide Chained, AllNear, InReach, Appended, EndRefs, Patch, Disjoint, Gen, Fits, WellFormed, Kept, KeptCases, Adds;
    ghost var s1, top, refs, l, n := b.View(), lp.start.target, lp.end.refs, m.breakLabel, m.nextCase;
    EmitStmt(b, body, lp, brk, cont, end);
    AppendedSize(b.View(), s1, x.code, top);
    ChainedAppended(b.View(), s1, x.code, top, l.refs, l.lastForwardRef);
    ChainedAppended(b.View(), s1, x.code, top, n.refs, n.lastForwardRef);
    BodyChain(s1, x.code, l.refs, l.lastForwardRef, refs);
    BodyChain(s1, x.code, n.refs, n.lastForwardRef, refs);
  }

  /** What the cases add to the block: the branch out of the case before them, if there is one, and their own code. */
  function CasesCode(cs: Cases, first: bool, loads: set<Reg>, y: Out): (r: seq<Item>)
    ensures |r| == |y.code| + if first || cs.NoCase? then 0 else 1
  {
    if first || cs.NoCase? then y.code else [Emit(Branch(|y.code|, Always, 0), loads)] + y.code
  }

  /** The tracker behind the match, once the last case is closed. */
  ghost function Merged(b: Builder, m: Match): Ls
    reads b, m, m.orig, m.lsState, m.caseState
  {
    var all := if b.stack == m.caseBlock then Join(m.lsState.now, m.caseState.now) else m.lsState.now;
    if m.defaultEmitted then all else Join(m.orig.now, all)
  }

  /** The cases `cs`, which come out as `y`, can be emitted. */
  ghost predicate CasesReady(b: Builder, m: Match, lp: Loop, cs: Cases, g: Ctx, orig: Ls, acc: Ls, y: Out, finish: int,
                             end: int)
    reads b, b.cur, b.pending, b.pending.block, b.pending.endLabel, b.pending.lsState, m, m.caseBlock, m.breakLabel,
          m.nextCase, m.orig, m.lsState,
          lp, lp.start, lp.end
  {
    var first := m.nextCase.refs == [];
    var n := |b.View()|;
    && Between(b, m, lp, n + (if cs.NoCase? then 0 else 1), finish, end) && lp.orig != b.cur
    && b.Ctx() == g && m.orig.now == orig && y.ok && finish == n + |CasesCode(cs, first, g.tr.loads, y)| <= end
    && m.subject != m.scratch && (cs.Default? ==> !first)
    && (first ==> acc == IDLE == m.lsState.now && !g.pend) && (!first ==> acc == Join(m.lsState.now, g.tr))
    && (!first && !cs.NoCase? ==> Near(n, finish))
  }

  /** They have been emitted, behind `before`; `code` is in place once both labels of the match are set to `finish`. */
  ghost predicate CasesEmitted(b: Builder, m: Match, lp: Loop, y: Out, code: seq<Item>, before: seq<Instr>,
                               refs: seq<nat>, div: Ls, finish: int, end: int)
    reads b, b.pending, b.pending.block, b.pending.endLabel, b.pending.lsState, m, m.caseBlock, m.breakLabel,
          m.nextCase, m.orig, m.lsState, m.caseState,
          lp, lp.start, lp.end, lp.orig
  {
    && b.Valid() && !b.Active() && (b.stack == m.block || (b.stack == m.caseBlock && m.caseBlock.next == m.block))
    && |b.instrs| == finish && Labelled(b, m, lp, finish, finish, end)
    && Appended(Patch(Patch(b.instrs, m.nextCase.refs, |b.instrs|), m.breakLabel.refs, |b.instrs|), before, code,
                lp.start.target)
    && lp.end.refs == refs + EndRefs(code, |before|) && lp.orig != null && lp.orig.now == Join(div, y.div)
    && b.pending.lsState.now == y.ctx.ifLs && Merged(b, m) == y.ctx.tr
  }

  lemma NoMoreCases(b: Builder, m: Match, lp: Loop, g: Ctx, orig: Ls, acc: Ls, y: Out, finish: int, end: int)
    requires y == Out([], g.(tr := Join(orig, acc), pend := false), IDLE, !g.pend)
    requires CasesReady(b, m, lp, NoCase, g, orig, acc, y, finish, end)
    ensures CasesEmitted(b, m, lp, y, CasesCode(NoCase, m.nextCase.refs == [], g.tr.loads, y),
                         Patch(Patch(b.View(), m.nextCase.refs, |b.View()|), m.breakLabel.refs, finish),
                         lp.end.refs, DivOf(lp), finish, end)
  {
    hide Chained, AllNear, InReach, Appended, EndRefs, Patch, Disjoint;
    PatchNothing(b.instrs, |b.instrs|);
    AppendedSelf(Patch(Patch(b.instrs, m.nextCase.refs, |b.instrs|), m.breakLabel.refs, |b.instrs|), lp.start.target);
    JoinNothing(DivOf(lp));
    JoinNothing(m.lsState.now);
  }

  lemma LeaveRefs(code: seq<Item>, n: int, loads: set<Reg>, at: nat)
    ensures EndRefs([Emit(Branch(n, Always, 0), loads)] + code, at) == EndRefs(code, at + 1)
  {
    hide EndRefs;
    OneEmit(Emit(Branch(n, Always, 0), loads), at);
    EndRefsConcat([Emit(Branch(n, Always, 0), loads)], code, at);
  }

  method OpenDefault(b: Builder, m: Match, lp: Loop, ghost finish: int, ghost end: int)
    requires Between(b, m, lp, |b.View()| + 1, finish, end) && m.nextCase.refs != [] && |b.View()| < finish
    requires Near(|b.View()|, finish)
    modifies b`instrs, b`stack, b`cur, b.Closing(), b.cur, m`defaultEmitted, m.caseBlock, m.caseState, m.lsState,
             m.breakLabel, m.nextCase
    ensures b.Valid() && !b.Active() && b.stack == m.caseBlock && m.caseBlock.next == m.block && b.View() == b.instrs
    ensures b.cur == m.caseState && m.caseState.now == m.orig.now == old(m.orig.now) && m.defaultEmitted
    ensures m.nextCase.Clear() && Labelled(b, m, lp, finish, finish, end)
    ensures Appended(b.instrs, Patch(old(b.View()), old(m.nextCase.refs), |old(b.View())| + 1),
                     [ToEnd(Always, 0, old(b.cur.now.loads))], lp.start.target)
    ensures m.breakLabel.refs == old(m.breakLabel.refs) + [|old(b.View())|]
    ensures m.lsState.now == Join(old(m.lsState.now), old(b.cur.now))
  {
    hide Chained, AllNear, InReach, Appended, EndRefs, Patch, Disjoint;
    ghost var s, loads, top, l := b.View(), b.cur.now.loads, lp.start.target, lp.end;
    ghost var next, breaks := m.nextCase.refs, m.breakLabel.refs;
    ChainedBelow(s, breaks, m.breakLabel.lastForwardRef);
    MatchDefault(b, m, finish, top);
    AppendedSelf(b.instrs, top);
    TestChain(s, b.instrs, b.instrs, false, loads, [], top, next, breaks, l.refs, l.lastForwardRef);
    NothingDisjoint(l.refs);
    NothingDisjoint(m.breakLabel.refs);
    ChainedNone(b.instrs, finish);
  }

  method EmitDefault(b: Builder, m: Match, body: Stmt, lp: Loop, ghost g: Ctx, ghost orig: Ls, ghost acc: Ls,
                     ghost x: Out, ghost y: Out, ghost brk: bool, ghost cont: bool, ghost finish: int, ghost end: int)
    requires WellFormed(body, brk, cont) && x == Gen(b.lsSlot, body, Ctx(orig, g.ifLs, false), lp.origCopy)
    requires y == Out(x.code, x.ctx.(tr := Join(acc, x.ctx.tr), pend := false), x.div, x.ok && !x.ctx.pend)
    requires CasesReady(b, m, lp, Default(body), g, orig, acc, y, finish, end)
    requires Fits(b.lsSlot, body, Ctx(orig, g.ifLs, false), lp.origCopy, |b.View()| + 1, end, lp.start.target)
    modifies b`instrs, b`stack, b`cur, b`pendingMaybes, b.pending, b.pending.block, b.pending.endLabel,
             b.pending.lsState,
             b.cur, lp.start, lp.end, lp.orig, m`defaultEmitted, m.caseBlock, m.caseState, m.lsState, m.breakLabel,
             m.nextCase
    ensures CasesEmitted(b, m, lp, y, CasesCode(Default(Skip), false, g.tr.loads, y),
                         Patch(Patch(old(b.View()), old(m.nextCase.refs), |old(b.View())| + 1), old(m.breakLabel.refs),
                               finish),
                         old(lp.end.refs), old(DivOf(lp)), finish, end)
    ensures lp.start.target == old(lp.start.target)
    ensures OnlyOwn(b)
    ensures Adds(b.pendingMaybes, old(b.pendingMaybes),
                 Kept(b.lsSlot, body, Ctx(orig, g.ifLs, false), lp.origCopy, |old(b.View())| + 1, lp.start.target))
    decreases body, 3
  {
    hide Chained, AllNear, InReach, Appended, EndRefs, Patch, Disjoint, Gen, Fits, WellFormed, Kept, KeptCases, Adds,
         Waiting, CasesEmitted;
    ghost var s, top, refs := b.View(), lp.start.target, lp.end.refs;
    ghost var next, breaks := m.nextCase.refs, m.breakLabel.refs;
    ghost var a := Patch(s, next, |s| + 1);
    LabelsDiffer(b, m, lp, |s| + 1, finish, end);
    ChainedBelow(s, breaks, m.breakLabel.lastForwardRef);
    OpenDefault(b, m, lp, finish, end);
    ghost var s1 := b.View();
    AppendedSize(s1, a, [ToEnd(Always, 0, g.tr.loads)], top);
    LabelsDiffer(b, m, lp, finish, finish, end);
    EmitInCase(b, m, body, lp, x, brk, cont, finish, finish, end);
    DefaultEmitted(b, m, lp, g, acc, x, y, s, s1, next, breaks, refs, old(DivOf(lp)), finish, end);
  }

  /** The default body is the last. */
  lemma DefaultEmitted(b: Builder, m: Match, lp: Loop, g: Ctx, acc: Ls, x: Out, y: Out, s: seq<Instr>, s1: seq<Instr>,
                       next: seq<nat>, breaks: seq<nat>, refs: seq<nat>, div: Ls, finish: int, end: int)
    requires y == Out(x.code, x.ctx.(tr := Join(acc, x.ctx.tr), pend := false), x.div, x.ok && !x.ctx.pend)
    requires !x.ctx.pend
    requires Emitted'(b, lp, x, s1, refs, div, []) && b.Outer() == m.caseBlock && m.caseBlock.next == m.block
    requires b.cur == m.caseState
    requires Labelled(b, m, lp, finish, finish, end) && m.defaultEmitted && m.nextCase.refs == []
    requires acc == m.lsState.now
    requires m.breakLabel.refs == breaks + [|s|] && finish == |s| + 1 + |x.code|
    requires Appended(s1, Patch(s, next, |s| + 1), [ToEnd(Always, 0, g.tr.loads)], lp.start.target)
    requires forall k :: 0 <= k < |breaks| ==> breaks[k] < |s|
    ensures CasesEmitted(b, m, lp, y, CasesCode(Default(Skip), false, g.tr.loads, y),
                         Patch(Patch(s, next, |s| + 1), breaks, finish), refs, div,
                         finish, end)
  {
    hide Chained, AllNear, InReach, Appended, EndRefs, Patch, Disjoint, Labelled;
    var a, s2, top := Patch(s, next, |s| + 1), b.View(), lp.start.target;
    PatchNothing(b.instrs, |b.instrs|);
    AppendedSize(s1, a, [ToEnd(Always, 0, g.tr.loads)], top);
    AppendedSize(s2, s1, x.code, top);
    LeaveCode(a, s1, s2, g.tr.loads, x.code, 0, breaks, top);
    LeaveRefs(x.code, |x.code|, g.tr.loads, |s|);
    MergeOrder(acc, m.lsState.now, x.ctx.tr);
  }

  lemma MergeOrder(acc: Ls, a: Ls, b: Ls)
    ensures Join(a, b) == Join(b, a)
  {
  }

  /** What one more case does to the code of a match. */
  lemma CaseParts(ls: nat, v: Reg, scratch: Reg, cs: Cases, first: bool, orig: Ls, acc: Ls, g: Ctx, head: Ls,
                  at: int, finish: int, end: int, start: int, brk: bool, cont: bool)
    requires cs.Case? && v != scratch && WellFormedCases(cs, brk, cont)
    requires FitsCases(ls, v, scratch, cs, first, orig, acc, g, head, at, finish, end, start)
    requires GenCases(ls, v, scratch, cs, first, orig, acc, g, head).ok
    requires finish == at + |GenCases(ls, v, scratch, cs, first, orig, acc, g, head).code|
    ensures var p := Compare(ls, v, scratch, cs.id, g.tr);
            var g1 := Ctx(if first then p.tr else orig, g.ifLs, false);
            var x := Gen(ls, cs.body, g1, head);
            var mid := at + |p.code| + |x.code|;
            && CaseRest(ls, v, scratch, cs, g, orig, acc, first, p, x, mid, at, head, start, finish, end)
            && p.code != [] && x.ok && mid <= finish && WellFormed(cs.body, brk, cont)
            && WellFormedCases(cs.rest, brk, cont)
            && InReach(p.code, at, mid + (if cs.rest.NoCase? then 0 else 1), start)
            && Fits(ls, cs.body, g1, head, at + |p.code|, end, start)
  {
    hide Compare, GenTest, Gen, Fits, InReach, WellFormed, Resolve, SameInstrs;
    var p := Compare(ls, v, scratch, cs.id, g.tr);
    var view := if first then g.tr.loads else orig.loads;
    TestIs(ls, v, scratch, cs.id, 0, g.tr, view, start - at);
    var x := Gen(ls, cs.body, Ctx(if first then p.tr else orig, g.ifLs, false), head);
    var extra := if cs.rest.NoCase? then 0 else 1;
    TestIs(ls, v, scratch, cs.id, |x.code| + extra, g.tr, view, start - at);
    TestSize(ls, v, scratch, cs.id, |x.code| + extra, g.tr, view);
  }

  lemma TestSize(ls: nat, v: Reg, scratch: Reg, id: Word, k: nat, tr: Ls, view: set<Reg>)
    requires v != scratch
    ensures var p := Compare(ls, v, scratch, id, tr);
            |GenTest(ls, v, scratch, id, k, tr, view).code| == |p.code| && p.code != []
  {
    TestIs(ls, v, scratch, id, k, tr, view, 0);
  }

  /** The code of one case together with the branch out of the one before it. */
  lemma CaseDone(s: seq<Instr>, next: seq<nat>, breaks: seq<nat>, first: bool, mid: seq<Instr>, s1: seq<Instr>,
                 s2: seq<Instr>, f: seq<Instr>,
                 loads: set<Reg>, p: seq<Item>, test: seq<Item>, x: seq<Item>, tail: seq<Item>, extra: nat, start: int)
    requires forall k :: 0 <= k < |breaks| ==> breaks[k] < |s|
    requires if first then mid == s && next == [] && breaks == []
             else Appended(mid, Patch(s, next, |s| + 1), [ToEnd(Always, 0, loads)], start)
    requires Appended(s1, mid, p, start) && Appended(s2, s1, x, start)
    requires SameInstrs(Resolve(p, |p| + |x| + extra, start - |mid|), test)
    requires Appended(f, Patch(Patch(s2, EndRefs(p, |mid|), |s2| + extra), if first then []
                               else breaks + [|s|], |s2| + |tail|), tail, start)
    ensures var code := test + x + tail;
            Appended(f, Patch(Patch(s, next, |s| + 1), breaks, |s2| + |tail|),
                     if first then code else [Emit(Branch(|code|, Always, 0), loads)] + code, start)
  {
    hide Appended, EndRefs, Patch, Resolve, SameInstrs;
    CaseCode(mid, s1, s2, p, test, x, extra, start);
    var z := Patch(s2, EndRefs(p, |mid|), |s2| + extra);
    if first {
      PatchNothing(z, |s2| + |tail|);
      PatchNothing(s, |s| + 1);
      PatchNothing(s, |s2| + |tail|);
      AppendedTwice(s, z, f, test + x, tail, start);
    } else {
      LeftCase(Patch(s, next, |s| + 1), breaks, mid, z, f, loads, test + x, tail, start);
    }
  }

  lemma LeftCase(a: seq<Instr>, breaks: seq<nat>, mid: seq<Instr>, z: seq<Instr>, f: seq<Instr>, loads: set<Reg>,
                 code: seq<Item>, tail: seq<Item>, start: int)
    requires forall k :: 0 <= k < |breaks| ==> breaks[k] < |a|
    requires Appended(mid, a, [ToEnd(Always, 0, loads)], start) && Appended(z, mid, code, start)
    requires Appended(f, Patch(z, breaks + [|a|], |z| + |tail|), tail, start)
    ensures Appended(f, Patch(a, breaks, |z| + |tail|), [Emit(Branch(|code + tail|, Always, 0), loads)]
                     + (code + tail), start)
  {
    hide Appended, EndRefs, Patch;
    var finish := |z| + |tail|;
    var out := [Emit(Branch(|code| + |tail|, Always, 0), loads)];
    LeaveCode(a, mid, z, loads, code, |tail|, breaks, start);
    AppendedTwice(Patch(a, breaks, finish), Patch(z, breaks + [|a|], finish), f, out + code, tail, start);
    assert out + code + tail == out + (code + tail);
  }

  lemma CaseRefs(first: bool, loads: set<Reg>, test: seq<Item>, x: seq<Item>, tail: seq<Item>, at: nat)
    requires EndRefs(test, if first then at else at + 1) == []
    ensures var code := test + x + tail;
            var n := at + |test| + if first then 0 else 1;
            EndRefs(if first then code else [Emit(Branch(|code|, Always, 0), loads)] + code, at)
              == EndRefs(x, n) + EndRefs(tail, n + |x|)
  {
    hide EndRefs;
    var n := at + if first then 0 else 1;
    EndRefsConcat(test, x, n);
    EndRefsConcat(test + x, tail, n);
    LeaveRefs(test + x + tail, |test + x + tail|, loads, at);
  }

  method EmitCases(b: Builder, m: Match, cs: Cases, lp: Loop, ghost g: Ctx, ghost orig: Ls, ghost acc: Ls,
                   ghost brk: bool, ghost cont: bool, ghost finish: int, ghost end: int)
    requires WellFormedCases(cs, brk, cont)
    requires CasesReady(b, m, lp, cs, g, orig, acc,
                        GenCases(b.lsSlot, m.subject, m.scratch, cs, m.nextCase.refs == [], orig, acc, g, lp.origCopy),
                            finish, end)
    requires FitsCases(b.lsSlot, m.subject, m.scratch, cs, m.nextCase.refs == [], orig, acc, g, lp.origCopy,
                       |b.View()| + (if m.nextCase.refs == [] || cs.NoCase? then 0 else 1), finish, end,
                           lp.start.target)
    modifies b`instrs, b`stack, b`cur, b`pendingMaybes, b.pending, b.pending.block, b.pending.endLabel,
             b.pending.lsState,
             b.cur, lp.start, lp.end, lp.orig, m`defaultEmitted, m.caseBlock, m.caseState, m.lsState, m.breakLabel,
             m.nextCase
    ensures var y := GenCases(b.lsSlot, m.subject, m.scratch, cs, old(m.nextCase.refs) == [], orig, acc, g,
                              lp.origCopy);
            CasesEmitted(b, m, lp, y, CasesCode(cs, old(m.nextCase.refs) == [], g.tr.loads, y),
                         Patch(Patch(old(b.View()), old(m.nextCase.refs), |old(b.View())| + if cs.NoCase? then 0
                                     else 1), old(m.breakLabel.refs), finish),
                         old(lp.end.refs), old(DivOf(lp)), finish, end)
    ensures lp.start.target == old(lp.start.target)
    ensures OnlyOwn(b)
    ensures Adds(b.pendingMaybes, old(b.pendingMaybes),
                 KeptCases(b.lsSlot, m.subject, m.scratch, cs, old(m.nextCase.refs) == [], orig, acc, g, lp.origCopy,
                           |old(b.View())| + (if old(m.nextCase.refs) == [] || cs.NoCase? then 0 else 1),
                               lp.start.target))
    decreases cs, 2
  {
    hide Chained, AllNear, InReach, Appended, EndRefs, Patch, Disjoint, Gen, Fits, WellFormed, CasesReady, CasesEmitted,
         Compare, Kept, Adds;
    ghost var first := m.nextCase.refs == [];
    ghost var y := GenCases(b.lsSlot, m.subject, m.scratch, cs, first, orig, acc, g, lp.origCopy);
    match cs
    case NoCase =>
      NoMoreCases(b, m, lp, g, orig, acc, y, finish, end);
      AddsNothing(b.pendingMaybes);
    case Default(body) =>
      NoFirstDefault(b, m, lp, cs, g, orig, acc, y, finish, end);
      ghost var x := Gen(b.lsSlot, body, Ctx(orig, g.ifLs, false), lp.origCopy);
      EmitDefault(b, m, body, lp, g, orig, acc, x, y, brk, cont, finish, end);
    case Case(_, _, _) =>
      CaseReadyParts(b, m, lp, cs, g, orig, acc, y, finish, end);
      EmitNextCase(b, m, cs, lp, g, orig, acc, y, brk, cont, b.View(), m.nextCase.refs, m.breakLabel.refs, lp.end.refs,
                   DivOf(lp), finish, end);
  }

  method EmitNextCase(b: Builder, m: Match, cs: Cases, lp: Loop, ghost g: Ctx, ghost orig: Ls, ghost acc: Ls,
                      ghost y: Out, ghost brk: bool, ghost cont: bool, ghost s: seq<Instr>, ghost next: seq<nat>,
                      ghost breaks: seq<nat>, ghost refs: seq<nat>, ghost div: Ls, ghost finish: int, ghost end: int)
    requires cs.Case? && WellFormedCases(cs, brk, cont) && s == b.View() && next == m.nextCase.refs
    requires breaks == m.breakLabel.refs
    requires refs == lp.end.refs && lp.orig != null && div == lp.orig.now
    requires y == GenCases(b.lsSlot, m.subject, m.scratch, cs, next == [], orig, acc, g, lp.origCopy)
    requires CasesReady(b, m, lp, cs, g, orig, acc, y, finish, end)
    requires FitsCases(b.lsSlot, m.subject, m.scratch, cs, next
                       == [], orig, acc, g, lp.origCopy, |s| + (if next == [] then 0 else 1), finish,
                       end, lp.start.target)
    modifies b`instrs, b`stack, b`cur, b`pendingMaybes, b.pending, b.pending.block, b.pending.endLabel,
             b.pending.lsState,
             b.cur, lp.start, lp.end, lp.orig, m`defaultEmitted, m.caseBlock, m.caseState, m.lsState, m.breakLabel,
             m.nextCase
    ensures CasesEmitted(b, m, lp, y, CasesCode(cs, next == [], g.tr.loads, y),
                         Patch(Patch(s, next, |s| + 1), breaks, finish), refs, div,
                         finish, end)
    ensures lp.start.target == old(lp.start.target)
    ensures OnlyOwn(b)
    ensures Adds(b.pendingMaybes, old(b.pendingMaybes),
                 KeptCases(b.lsSlot, m.subject, m.scratch, cs, next
                           == [], orig, acc, g, lp.origCopy, |s| + (if next == [] then 0 else 1),
                           lp.start.target))
    decreases cs, 1
  {
    hide Chained, AllNear, InReach, Appended, EndRefs, Patch, Disjoint, Gen, GenCases, GenTest, Fits, FitsCases,
         WellFormed, WellFormedCases, Compare,
         Resolve, SameInstrs, CasesReady, CasesEmitted, CasesCode, CaseOpen, Kept, KeptCases, Adds, CaseRest, Between,
         Labelled, Waiting, Ready, Inside, Apart, Own;
    ghost var p := Compare(b.lsSlot, m.subject, m.scratch, cs.id, g.tr);
    ghost var x := Gen(b.lsSlot, cs.body, Ctx(if next == [] then p.tr else orig, g.ifLs, false), lp.origCopy);
    CaseReadyParts(b, m, lp, cs, g, orig, acc, y, finish, end);
    ghost var mid := OpenCase(b, m, cs, lp, g, orig, acc, brk, cont, p, x, s, next, breaks, finish, end);
    OpenSize(b, m, cs, lp, g, orig, acc, next == [], brk, cont, p, x, s, next, breaks, mid, finish, end);
    EmitCase(b, m, cs, lp, g, orig, acc, next == [], brk, cont, p, x, s, next, breaks, mid, finish, end);
    CaseKept(b.lsSlot, m.subject, m.scratch, cs, next == [], orig, acc, g, lp.origCopy,
             |s| + if next == [] then 0 else 1, lp.start.target);
  }

  lemma NoFirstDefault(b: Builder, m: Match, lp: Loop, cs: Cases, g: Ctx, orig: Ls, acc: Ls, y: Out, finish: int,
                       end: int)
    requires CasesReady(b, m, lp, cs, g, orig, acc, y, finish, end) && cs.Default?
    ensures m.nextCase.refs != []
  {
  }

  lemma CaseReadyParts(b: Builder, m: Match, lp: Loop, cs: Cases, g: Ctx, orig: Ls, acc: Ls, y: Out, finish: int,
                       end: int)
    requires CasesReady(b, m, lp, cs, g, orig, acc, y, finish, end) && cs.Case?
    ensures var first, n := m.nextCase.refs == [], |b.View()|;
            && b.Valid() && Between(b, m, lp, n + 1, finish, end) && Inside(b, lp, end) && Apart(m, lp) && Own(b, m)
            && lp.orig != b.cur && b.Ctx() == g && m.orig.now == orig && y.ok && m.subject != m.scratch
            && finish == n + |y.code| + (if first then 0 else 1) <= end && (!first ==> Near(n, finish))
            && !m.defaultEmitted
            && Chained(b.View(), m.breakLabel.refs, m.breakLabel.lastForwardRef)
            && (b.cur == m.orig || b.cur == m.caseState) && (first ==> m.breakLabel.refs == [])
            && (if first then acc == IDLE == m.lsState.now && b.cur == m.orig else acc == Join(m.lsState.now, g.tr))
  {
    hide Patch, Chained, AllNear, Disjoint;
    LabelsDiffer(b, m, lp, |b.View()| + 1, finish, end);
  }

  lemma OpenSize(b: Builder, m: Match, cs: Cases, lp: Loop, g: Ctx, orig: Ls, acc: Ls, first: bool, brk: bool,
                 cont: bool,
                 p: Piece, x: Out, s: seq<Instr>, next: seq<nat>, breaks: seq<nat>, mid: seq<Instr>, finish: int,
                 end: int)
    requires CaseOpen(b, m, cs, lp, g, orig, acc, first, brk, cont, p, x, s, next, breaks, mid, finish, end)
    ensures |b.View()| == |s| + |p.code| + (if first then 0 else 1)
    ensures b.Ctx() == Ctx(if first then p.tr else orig, g.ifLs, false)
  {
    hide Chained, AllNear, InReach, Appended, EndRefs, Patch, Disjoint, Gen, GenCases, GenTest, Fits, FitsCases,
         WellFormed, Compare, Waiting;
    if !first { AppendedSize(mid, Patch(s, next, |s| + 1), [ToEnd(Always, 0, g.tr.loads)], lp.start.target); }
    AppendedSize(b.View(), mid, p.code, lp.start.target);
    LabelsDiffer(b, m, lp, |b.View()| + |x.code| + (if cs.rest.NoCase? then 0 else 1), finish, end);
  }

  /** The branch out of the case before, and the test. */
  method OpenCase(b: Builder, m: Match, cs: Cases, lp: Loop, ghost g: Ctx, ghost orig: Ls, ghost acc: Ls,
                  ghost brk: bool, ghost cont: bool,
                  ghost p: Piece, ghost x: Out, ghost s: seq<Instr>, ghost next: seq<nat>, ghost breaks: seq<nat>,
                  ghost finish: int, ghost end: int)
    returns (ghost mid: seq<Instr>)
    requires WellFormedCases(cs, brk, cont) && cs.Case? && p == Compare(b.lsSlot, m.subject, m.scratch, cs.id, g.tr)
    requires lp.orig != null
    requires s == b.View() && next == m.nextCase.refs && breaks == m.breakLabel.refs
    requires x == Gen(b.lsSlot, cs.body, Ctx(if next == [] then p.tr else orig, g.ifLs, false), lp.origCopy)
    requires CasesReady(b, m, lp, cs, g, orig, acc, GenCases(b.lsSlot, m.subject, m.scratch, cs, next
                                                             == [], orig, acc, g, lp.origCopy), finish, end)
    requires FitsCases(b.lsSlot, m.subject, m.scratch, cs, next
                       == [], orig, acc, g, lp.origCopy, |s| + (if next == [] then 0 else 1), finish,
                       end, lp.start.target)
    modifies b`instrs, b`stack, b`cur, b.Closing(), b.cur, m.caseBlock, m.caseState, m.lsState, m.breakLabel, m.nextCase
    ensures lp.end.refs == old(lp.end.refs) && lp.start.target == old(lp.start.target) && lp.orig != null
    ensures lp.orig.now == old(DivOf(lp))
    ensures b.cur == m.caseState
    ensures CaseOpen(b, m, cs, lp, g, orig, acc, next == [], brk, cont, p, x, s, next, breaks, mid, finish, end)
  {
    hide Chained, AllNear, InReach, Appended, EndRefs, Patch, Disjoint, Gen, GenCases, GenTest, Fits, FitsCases,
         WellFormed, WellFormedCases, Compare,
         Resolve, SameInstrs, Waiting, Labelled, Between, CasesReady, CasesCode, CaseRest, Ready, Inside, Apart, Own;
    ghost var ls, head, top, first := b.lsSlot, lp.origCopy, lp.start.target, next == [];
    ghost var at := |s| + if first then 0 else 1;
    ghost var extra := if cs.rest.NoCase? then 0 else 1;
    CaseReadyParts(b, m, lp, cs, g, orig, acc, GenCases(ls, m.subject, m.scratch, cs, first, orig, acc, g, head),
                   finish, end);
    CaseParts(ls, m.subject, m.scratch, cs, first, orig, acc, g, head, at, finish, end, top, brk, cont);
    ChainedBelow(s, breaks, m.breakLabel.lastForwardRef);
    mid := OpenTest(b, m, cs.id, lp, p, x, extra, finish, end);
    if !first { AppendedSize(mid, Patch(s, next, |s| + 1), [ToEnd(Always, 0, g.tr.loads)], top); }
    AppendedSize(b.View(), mid, p.code, top);
    CompareRefs(ls, m.subject, m.scratch, cs.id, g.tr, |mid|);
  }

  /** The test of a case has been emitted, and its body can be. `s` was the code before the case, `next` and
      `breaks` the references of the labels of the match, `mid` the code the test begins behind. */
  ghost predicate CaseOpen(b: Builder, m: Match, cs: Cases, lp: Loop, g: Ctx, orig: Ls, acc: Ls, first: bool, brk: bool,
                           cont: bool,
                           p: Piece, x: Out, s: seq<Instr>, next: seq<nat>, breaks: seq<nat>, mid: seq<Instr>,
                           finish: int, end: int)
    reads b, b.cur, b.pending, b.pending.block, b.pending.endLabel, b.pending.lsState, m, m.caseBlock, m.breakLabel,
          m.nextCase, m.orig, m.lsState,
          lp, lp.start, lp.end
  {
    && cs.Case? && WellFormed(cs.body, brk, cont) && WellFormedCases(cs.rest, brk, cont) && m.subject != m.scratch
    && p == Compare(b.lsSlot, m.subject, m.scratch, cs.id, g.tr) && x == Gen(b.lsSlot, cs.body, b.Ctx(), lp.origCopy)
    && b.Ctx() == Ctx(if first then p.tr else orig, g.ifLs, false) && m.orig.now == (if first then p.tr else orig)
    && Ready(b, lp, x, end) && !b.Active() && b.stack == m.caseBlock && m.caseBlock.next == m.block
    && b.cur == m.caseState
    && m.nextCase.refs != [] && m.nextCase.refs == EndRefs(p.code, |mid|)
    && m.breakLabel.refs == (if first then [] else breaks + [|s|])
    && !m.defaultEmitted && acc == m.lsState.now && finish <= end && lp.orig != null
    && CaseRest(b.lsSlot, m.subject, m.scratch, cs, g, orig, acc, first, p, x,
                |b.View()| + |x.code|, |mid|, lp.origCopy, lp.start.target, finish, end)
    && Labelled(b, m, lp, |b.View()| + |x.code| + (if cs.rest.NoCase? then 0 else 1), finish, end)
    && Fits(b.lsSlot, cs.body, b.Ctx(), lp.origCopy, |b.View()|, end, lp.start.target)
    && (forall k :: 0 <= k < |breaks| ==> breaks[k] < |s|)
    && (if first then mid == s && next == [] && breaks == []
        else Appended(mid, Patch(s, next, |s| + 1), [ToEnd(Always, 0, g.tr.loads)], lp.start.target))
    && Appended(b.View(), mid, p.code, lp.start.target)
  }

  /** What is to come behind the body of a case, which ends at `n`; its test begins at `at`. */
  ghost predicate CaseRest(ls: nat, v: Reg, scratch: Reg, cs: Cases, g: Ctx, orig: Ls, acc: Ls, first: bool, p: Piece,
                           x: Out, n: int, at: int, head: Ls, start: int, finish: int, end: int)
    requires cs.Case?
  {
    var orig', acc' := if first then p.tr else orig, Join(acc, x.ctx.tr);
    var z := GenCases(ls, v, scratch, cs.rest, false, orig', acc', x.ctx, head);
    var extra := if cs.rest.NoCase? then 0 else 1;
    var tail := CasesCode(cs.rest, false, x.ctx.tr.loads, z);
    var test := GenTest(ls, v, scratch, cs.id, |x.code| + extra, g.tr, if first then g.tr.loads else orig.loads).code;
    && z.ok && finish == n + |tail| && (extra == 1 ==> Near(n, finish))
    && FitsCases(ls, v, scratch, cs.rest, false, orig', acc', x.ctx, head, n + extra, finish, end, start)
    && GenCases(ls, v, scratch, cs, first, orig, acc, g, head)
           == Out(test + x.code + tail, z.ctx, Join(x.div, z.div), x.ok && z.ok)
    && SameInstrs(Resolve(p.code, |p.code| + |x.code| + extra, start - at), test) && |test| == |p.code|
  }

  /** One case, behind its test, and the rest of the cases. */
  method EmitCase(b: Builder, m: Match, cs: Cases, lp: Loop, ghost g: Ctx, ghost orig: Ls, ghost acc: Ls,
                  ghost first: bool,
                  ghost brk: bool, ghost cont: bool, ghost p: Piece, ghost x: Out, ghost s: seq<Instr>,
                  ghost next: seq<nat>,
                  ghost breaks: seq<nat>, ghost mid: seq<Instr>, ghost finish: int, ghost end: int)
    requires CaseOpen(b, m, cs, lp, g, orig, acc, first, brk, cont, p, x, s, next, breaks, mid, finish, end)
    modifies b`instrs, b`stack, b`cur, b`pendingMaybes, b.pending, b.pending.block, b.pending.endLabel,
             b.pending.lsState,
             b.cur, lp.start, lp.end, lp.orig, m`defaultEmitted, m.caseBlock, m.caseState, m.lsState, m.breakLabel,
             m.nextCase
    ensures var y := GenCases(b.lsSlot, m.subject, m.scratch, cs, first, orig, acc, g, lp.origCopy);
            CasesEmitted(b, m, lp, y, CasesCode(cs, first, g.tr.loads, y),
                         Patch(Patch(s, next, |s| + 1), breaks, finish),
                         old(lp.end.refs), old(DivOf(lp)), finish, end)
    ensures lp.start.target == old(lp.start.target)
    ensures OnlyOwn(b)
    ensures Adds(b.pendingMaybes, old(b.pendingMaybes),
                 KeptCases(b.lsSlot, m.subject, m.scratch, cs.rest, false, if first then p.tr
                           else orig, Join(acc, x.ctx.tr), x.ctx,
                           lp.origCopy, |old(b.View())| + |x.code| + (if cs.rest.NoCase? then 0 else 1),
                           lp.start.target)
                 + Kept(b.lsSlot, cs.body, old(b.Ctx()), lp.origCopy, |old(b.View())|, lp.start.target))
    decreases cs, 0
  {
    hide Chained, AllNear, InReach, Appended, EndRefs, Patch, Disjoint, Gen, GenCases, GenTest, Fits, FitsCases,
         WellFormed, WellFormedCases, Compare,
         Resolve, SameInstrs, Waiting, CasesEmitted, CasesCode, Kept, KeptCases, Adds, Labelled, Inside, Apart, Own;
    ghost var s1, ms, refs, div, g1 := b.View(), b.pendingMaybes, lp.end.refs, DivOf(lp), b.Ctx();
    ghost var extra := if cs.rest.NoCase? then 0 else 1;
    EmitInCase(b, m, cs.body, lp, x, brk, cont, |s1| + |x.code| + extra, finish, end);
    ghost var hs := b.pendingMaybes;
    AppendedSize(b.View(), s1, x.code, lp.start.target);
    EmitRest(b, m, cs, lp, g, orig, acc, first, brk, cont, p, x, s, next, breaks, mid, s1, refs, div, finish, end);
    AddsMore(ms, hs, b.pendingMaybes, Kept(b.lsSlot, cs.body, g1, lp.origCopy, |s1|, lp.start.target),
             KeptCases(b.lsSlot, m.subject, m.scratch, cs.rest, false, if first then p.tr
                       else orig, Join(acc, x.ctx.tr), x.ctx,
                       lp.origCopy, |s1| + |x.code| + extra, lp.start.target));
  }

  /** The blocks kept by one case more. */
  lemma CaseKept(ls: nat, v: Reg, scratch: Reg, cs: Cases, first: bool, orig: Ls, acc: Ls, g: Ctx, head: Ls, at: nat,
                 start: int)
    requires cs.Case? && v != scratch
    ensures var p := Compare(ls, v, scratch, cs.id, g.tr);
            var orig' := if first then p.tr else orig;
            var g1 := Ctx(orig', g.ifLs, false);
            var x := Gen(ls, cs.body, g1, head);
            var next := at + |p.code| + |x.code| + if cs.rest.NoCase? then 0 else 1;
            KeptCases(ls, v, scratch, cs, first, orig, acc, g, head, at, start)
            == KeptCases(ls, v, scratch, cs.rest, false, orig', Join(acc, x.ctx.tr), x.ctx, head, next, start)
               + Kept(ls, cs.body, g1, head, at + |p.code|, start)
  {
    hide Compare, GenTest, Gen, Kept, Resolve, SameInstrs;
    TestIs(ls, v, scratch, cs.id, 0, g.tr, if first then g.tr.loads else orig.loads, 0);
    TestSize(ls, v, scratch, cs.id, 0, g.tr, if first then g.tr.loads else orig.loads);
  }

  /** The rest of the cases. */
  method EmitRest(b: Builder, m: Match, cs: Cases, lp: Loop, ghost g: Ctx, ghost orig: Ls, ghost acc: Ls,
                  ghost first: bool,
                  ghost brk: bool, ghost cont: bool, ghost p: Piece, ghost x: Out, ghost s: seq<Instr>,
                  ghost next: seq<nat>,
                  ghost breaks: seq<nat>, ghost mid: seq<Instr>, ghost s1: seq<Instr>, ghost refs: seq<nat>,
                  ghost div: Ls, ghost finish: int, ghost end: int)
    requires cs.Case? && WellFormedCases(cs.rest, brk, cont)
    requires p == Compare(b.lsSlot, m.subject, m.scratch, cs.id, g.tr)
    requires x == Gen(b.lsSlot, cs.body, Ctx(if first then p.tr else orig, g.ifLs, false), lp.origCopy)
    requires m.nextCase.refs != [] && m.nextCase.refs == EndRefs(p.code, |mid|)
    requires m.breakLabel.refs == if first then [] else breaks + [|s|]
    requires CaseRest(b.lsSlot, m.subject, m.scratch, cs, g, orig, acc, first, p, x, |b.View()|, |mid|, lp.origCopy,
                      lp.start.target, finish, end)
    requires var orig', acc' := if first then p.tr else orig, Join(acc, x.ctx.tr);
             CasesReady(b, m, lp, cs.rest, x.ctx, orig', acc',
                        GenCases(b.lsSlot, m.subject, m.scratch, cs.rest, false, orig', acc', x.ctx, lp.origCopy),
                        finish, end)
    requires forall k :: 0 <= k < |breaks| ==> breaks[k] < |s|
    requires if first then mid == s && next == [] && breaks == []
             else Appended(mid, Patch(s, next, |s| + 1), [ToEnd(Always, 0, g.tr.loads)], lp.start.target)
    requires Appended(s1, mid, p.code, lp.start.target) && Appended(b.View(), s1, x.code, lp.start.target)
    requires lp.end.refs == refs + EndRefs(x.code, |s1|) && lp.orig.now == Join(div, x.div)
    modifies b`instrs, b`stack, b`cur, b`pendingMaybes, b.pending, b.pending.block, b.pending.endLabel,
             b.pending.lsState,
             b.cur, lp.start, lp.end, lp.orig, m`defaultEmitted, m.caseBlock, m.caseState, m.lsState, m.breakLabel,
             m.nextCase
    ensures var y := GenCases(b.lsSlot, m.subject, m.scratch, cs, first, orig, acc, g, lp.origCopy);
            CasesEmitted(b, m, lp, y, CasesCode(cs, first, g.tr.loads, y),
                         Patch(Patch(s, next, |s| + 1), breaks, finish), refs, div, finish, end)
    ensures lp.start.target == old(lp.start.target)
    ensures OnlyOwn(b)
    ensures Adds(b.pendingMaybes, old(b.pendingMaybes),
                 KeptCases(b.lsSlot, m.subject, m.scratch, cs.rest, false, if first then p.tr
                           else orig, Join(acc, x.ctx.tr), x.ctx,
                           lp.origCopy, |old(b.View())| + (if cs.rest.NoCase? then 0 else 1), lp.start.target))
    decreases cs.rest, 3
  {
    hide Chained, AllNear, InReach, Appended, EndRefs, Patch, Disjoint, Gen, GenCases, GenTest, Fits, FitsCases,
         WellFormed, WellFormedCases, Compare,
         Resolve, SameInstrs, Waiting, Own, CasesEmitted, CasesReady, CasesCode, Kept, KeptCases, Adds, Inside, Apart,
         Between, Labelled, Ready, CaseRest;
    ghost var ls, head, top, s2 := b.lsSlot, lp.origCopy, lp.start.target, b.View();
    ghost var orig', acc' := if first then p.tr else orig, Join(acc, x.ctx.tr);
    ghost var z := GenCases(ls, m.subject, m.scratch, cs.rest, false, orig', acc', x.ctx, head);
    RestIs(ls, m.subject, m.scratch, cs, g, orig, acc, first, p, x, |s2|, |mid|, head, top, finish, end);
    ReadySize(b, m, lp, cs.rest, x.ctx, orig', acc', z, finish, end);
    AppendedSize(s1, mid, p.code, top);
    AppendedSize(s2, s1, x.code, top);
    EmitCases(b, m, cs.rest, lp, x.ctx, orig', acc', brk, cont, finish, end);
    ghost var y := GenCases(ls, m.subject, m.scratch, cs, first, orig, acc, g, head);
    ghost var extra, tail := if cs.rest.NoCase? then 0 else 1, CasesCode(cs.rest, false, x.ctx.tr.loads, z);
    ghost var view := if first then g.tr.loads else orig.loads;
    ghost var test := GenTest(ls, m.subject, m.scratch, cs.id, |x.code| + extra, g.tr, view).code;
    TestHasNoEnds(ls, m.subject, m.scratch, cs.id, |x.code| + extra, g.tr, view, |mid|);
    ghost var inner := Patch(Patch(s2, EndRefs(p.code, |mid|), |s2| + extra), if first then [] else breaks + [|s|],
                             finish);
    CasesAppended(b, m, lp, z, tail, inner, refs + EndRefs(x.code, |s1|), Join(div, x.div), finish, end);
    ghost var f := Patch(Patch(b.instrs, m.nextCase.refs, |b.instrs|), m.breakLabel.refs, |b.instrs|);
    WholeCase(cs, first, g.tr.loads, p.code, test, x.code, extra, tail, y, s, next, breaks, mid, s1, s2, inner, f,
              finish, top);
    CasesJoined(b, m, lp, cs, x, z, y, first, g.tr.loads, Patch(Patch(s, next, |s| + 1), breaks, finish), inner, |s1|,
                tail, refs, div, finish, end);
  }

  /** One case, and the rest behind it. */
  lemma WholeCase(cs: Cases, first: bool, loads: set<Reg>, p: seq<Item>, test: seq<Item>, x: seq<Item>, extra: nat,
                  tail: seq<Item>, y: Out,
                  s: seq<Instr>, next: seq<nat>, breaks: seq<nat>, mid: seq<Instr>, s1: seq<Instr>, s2: seq<Instr>,
                  inner: seq<Instr>, f: seq<Instr>, finish: nat, start: int)
    requires cs.Case? && y.code == test + x + tail
    requires |test| == |p| && EndRefs(test, |mid|) == []
    requires SameInstrs(Resolve(p, |p| + |x| + extra, start - |mid|), test)
    requires inner == Patch(Patch(s2, EndRefs(p, |mid|), |s2| + extra), if first then [] else breaks + [|s|], finish)
    requires finish == |s2| + |tail|
    requires forall k :: 0 <= k < |breaks| ==> breaks[k] < |s|
    requires if first then mid == s && next == [] && breaks == []
             else Appended(mid, Patch(s, next, |s| + 1), [ToEnd(Always, 0, loads)], start)
    requires Appended(s1, mid, p, start) && Appended(s2, s1, x, start) && Appended(f, inner, tail, start)
    ensures var code := CasesCode(cs, first, loads, y);
            && Appended(f, Patch(Patch(s, next, |s| + 1), breaks, finish), code, start)
            && EndRefs(code, |s|) == EndRefs(x, |s1|) + EndRefs(tail, |inner|)
  {
    hide Appended, EndRefs, Patch, Resolve, SameInstrs, CasesCode;
    CasesCodeIs(cs, first, loads, y);
    CasesWhole(s, next, breaks, first, mid, s1, s2, f, loads, p, test, x, tail, extra, start,
               CasesCode(cs, first, loads, y));
  }

  lemma RestIs(ls: nat, v: Reg, scratch: Reg, cs: Cases, g: Ctx, orig: Ls, acc: Ls, first: bool, p: Piece, x: Out,
               n: int, at: int, head: Ls, start: int, finish: int, end: int)
    requires cs.Case? && CaseRest(ls, v, scratch, cs, g, orig, acc, first, p, x, n, at, head, start, finish, end)
    ensures var orig', acc' := if first then p.tr else orig, Join(acc, x.ctx.tr);
            var z := GenCases(ls, v, scratch, cs.rest, false, orig', acc', x.ctx, head);
            var extra := if cs.rest.NoCase? then 0 else 1;
            var tail := CasesCode(cs.rest, false, x.ctx.tr.loads, z);
            var test := GenTest(ls, v, scratch, cs.id, |x.code| + extra, g.tr, if first then g.tr.loads
                                else orig.loads).code;
            && z.ok && finish == n + |tail|
            && FitsCases(ls, v, scratch, cs.rest, false, orig', acc', x.ctx, head, n + extra, finish, end, start)
            && GenCases(ls, v, scratch, cs, first, orig, acc, g, head)
                   == Out(test + x.code + tail, z.ctx, Join(x.div, z.div), x.ok && z.ok)
            && SameInstrs(Resolve(p.code, |p.code| + |x.code| + extra, start - at), test) && |test| == |p.code|
  {
    hide GenCases, GenTest, FitsCases, CasesCode, SameInstrs, Resolve;
  }

  lemma ReadySize(b: Builder, m: Match, lp: Loop, cs: Cases, g: Ctx, orig: Ls, acc: Ls, y: Out, finish: int, end: int)
    requires CasesReady(b, m, lp, cs, g, orig, acc, y, finish, end)
    ensures finish == |b.View()| + |CasesCode(cs, m.nextCase.refs == [], g.tr.loads, y)|
  {
  }

  lemma CasesCodeIs(cs: Cases, first: bool, loads: set<Reg>, y: Out)
    requires cs.Case?
    ensures CasesCode(cs, first, loads, y) == if first then y.code
            else [Emit(Branch(|y.code|, Always, 0), loads)] + y.code
  {
  }

  lemma CasesWhole(s: seq<Instr>, next: seq<nat>, breaks: seq<nat>, first: bool, mid: seq<Instr>, s1: seq<Instr>,
                   s2: seq<Instr>, f: seq<Instr>,
                   loads: set<Reg>, p: seq<Item>, test: seq<Item>, x: seq<Item>, tail: seq<Item>, extra: nat,
                   start: int, code: seq<Item>)
    requires forall k :: 0 <= k < |breaks| ==> breaks[k] < |s|
    requires if first then mid == s && next == [] && breaks == []
             else Appended(mid, Patch(s, next, |s| + 1), [ToEnd(Always, 0, loads)], start)
    requires Appended(s1, mid, p, start) && Appended(s2, s1, x, start) && |test| == |p| && EndRefs(test, |mid|) == []
    requires SameInstrs(Resolve(p, |p| + |x| + extra, start - |mid|), test)
    requires Appended(f, Patch(Patch(s2, EndRefs(p, |mid|), |s2| + extra), if first then []
                               else breaks + [|s|], |s2| + |tail|), tail, start)
    requires code == (if first then test + x + tail
                      else [Emit(Branch(|test + x + tail|, Always, 0), loads)] + (test + x + tail))
    ensures Appended(f, Patch(Patch(s, next, |s| + 1), breaks, |s2| + |tail|), code, start)
    ensures EndRefs(code, |s|) == EndRefs(x, |s1|) + EndRefs(tail, |s2|)
  {
    hide Appended, EndRefs, Patch, Resolve, SameInstrs;
    if !first { AppendedSize(mid, Patch(s, next, |s| + 1), [ToEnd(Always, 0, loads)], start); }
    AppendedSize(s1, mid, p, start);
    AppendedSize(s2, s1, x, start);
    CaseDone(s, next, breaks, first, mid, s1, s2, f, loads, p, test, x, tail, extra, start);
    CaseRefs(first, loads, test, x, tail, |s|);
  }

  /** One case and the rest of them. */
  lemma CasesJoined(b: Builder, m: Match, lp: Loop, cs: Cases, x: Out, z: Out, y: Out, first: bool, loads: set<Reg>,
                    before: seq<Instr>,
                    inner: seq<Instr>, at: nat, tail: seq<Item>, refs: seq<nat>, div: Ls, finish: int, end: int)
    requires cs.Case? && y.ctx == z.ctx && y.div == Join(x.div, z.div)
    requires CasesEmitted(b, m, lp, z, tail, inner, refs + EndRefs(x.code, at), Join(div, x.div), finish, end)
    requires var code := CasesCode(cs, first, loads, y);
             && Appended(Patch(Patch(b.instrs, m.nextCase.refs, |b.instrs|), m.breakLabel.refs, |b.instrs|), before,
                         code, lp.start.target)
             && EndRefs(code, |before|) == EndRefs(x.code, at) + EndRefs(tail, |inner|)
    ensures CasesEmitted(b, m, lp, y, CasesCode(cs, first, loads, y), before, refs, div, finish, end)
  {
    hide Appended, EndRefs, Patch, Waiting, Own, Labelled, Merged, CasesCode;
    JoinAssociates(div, x.div, z.div);
  }

  lemma CasesAppended(b: Builder, m: Match, lp: Loop, z: Out, tail: seq<Item>, inner: seq<Instr>, refs: seq<nat>,
                      div: Ls, finish: int, end: int)
    requires CasesEmitted(b, m, lp, z, tail, inner, refs, div, finish, end)
    ensures Appended(Patch(Patch(b.instrs, m.nextCase.refs, |b.instrs|), m.breakLabel.refs, |b.instrs|), inner, tail,
                     lp.start.target)
  {
  }

  lemma CompareRefs(ls: nat, v: Reg, scratch: Reg, id: Word, tr: Ls, at: nat)
    ensures EndRefs(Compare(ls, v, scratch, id, tr).code, at) != []
  {
    hide EndRefs, Branch32;
    if id == 0 {
      OneEndRef(at, ls, NEqual, v, tr);
    } else {
      var p := GenOp(ls, AddImm32(scratch, v, 0 - id), tr);
      EndRefsConcat(p.code, Branch32(ls, End, NEqual, scratch, p.tr).code, at);
      OneEndRef(at + |p.code|, ls, NEqual, scratch, p.tr);
    }
  }

  lemma {:induction false} CasesSettled(ls: nat, v: Reg, scratch: Reg, cs: Cases, first: bool, orig: Ls, acc: Ls,
                                        g: Ctx, head: Ls)
    ensures !GenCases(ls, v, scratch, cs, first, orig, acc, g, head).ctx.pend
    decreases cs
  {
    hide Gen, GenTest;
    if cs.Case? {
      var view := if first then g.tr.loads else orig.loads;
      var orig' := if first then GenTest(ls, v, scratch, cs.id, 0, g.tr, view).tr else orig;
      var x := Gen(ls, cs.body, Ctx(orig', g.ifLs, false), head);
      CasesSettled(ls, v, scratch, cs.rest, false, orig', Join(acc, x.ctx.tr), x.ctx, head);
    }
  }

  method OpenMatch(b: Builder, v: Reg, scratch: Reg, cs: Cases, lp: Loop, ghost g1: Ctx, ghost y: Out,
                   ghost end: int) returns (m: Match)
    requires Openable(b, lp, y, end) && v != scratch && !cs.Default? && g1 == b.Ctx().(pend := false)
    modifies b`instrs, b`stack, b.Closing()
    ensures fresh(m) && fresh(m.block) && fresh(m.caseBlock) && fresh(m.breakLabel) && fresh(m.nextCase)
    ensures fresh(m.caseState) && fresh(m.lsState)
    ensures CasesReady(b, m, lp, cs, g1, g1.tr, IDLE, y, |b.View()| + |y.code|, end)
    ensures m.nextCase.refs == m.breakLabel.refs == [] && m.orig == b.cur && m.subject == v && m.scratch == scratch
    ensures m.block.next == old(b.Outer())
    ensures b.View() == old(b.View()) && lp.orig != null
    ensures m.block != m.caseBlock && m.block.next != b.pending.block
  {
    hide Chained, AllNear, InReach, Appended, EndRefs, Patch, Disjoint;
    m := new Match(v, scratch, b.cur);
    MatchStart(b, m);
    NothingDisjoint(lp.end.refs);
    NothingDisjoint([]);
    ChainedNone(b.instrs, |b.instrs| + |y.code|);
    ChainedNone(b.instrs, |b.instrs| + if cs.NoCase? then 0 else 1);
  }

  method CloseMatch(b: Builder, m: Match, lp: Loop, ghost y: Out, ghost before: seq<Instr>, ghost refs: seq<nat>,
                    ghost div: Ls, ghost active: seq<nat>, ghost finish: int, ghost end: int)
    requires CasesEmitted(b, m, lp, y, y.code, before, refs, div, finish, end) && !y.ctx.pend
    requires m.block.next != null && m.block.next != b.pending.block
    modifies b`instrs, b`stack, b`cur, m.breakLabel, m.nextCase, m.lsState, m.orig
    ensures b.Outer() == m.block.next && b.cur == m.orig && Inside(b, lp, end)
    ensures Emitted'(b, lp, y, before, refs, div, active)
  {
    hide Chained, AllNear, InReach, Appended, EndRefs, Patch, Disjoint;
    ghost var s, n, l := b.instrs, |b.instrs|, lp.end;
    PatchNothing(b.instrs, n);
    ChainedPatched(s, l.refs, l.lastForwardRef, m.nextCase.refs, n);
    ChainedPatched(Patch(s, m.nextCase.refs, n), l.refs, l.lastForwardRef, m.breakLabel.refs, n);
    MatchEnd(b, m);
  }

  method EmitMatch(b: Builder, s: Stmt, lp: Loop, ghost brk: bool, ghost cont: bool, ghost end: int)
    requires s.Match?
    requires Ready(b, lp, Gen(b.lsSlot, s, b.Ctx(), lp.origCopy), end) && WellFormed(s, brk, cont)
    requires Fits(b.lsSlot, s, b.Ctx(), lp.origCopy, |b.View()|, end, lp.start.target)
    modifies b`instrs, b`stack, b`cur, b`pendingMaybes, b.pending, b.pending.block, b.pending.endLabel,
             b.pending.lsState,
             b.cur, lp.start, lp.end, lp.orig
    ensures Emitted'(b, lp, Gen(b.lsSlot, s, old(b.Ctx()), lp.origCopy), old(b.View()), old(lp.end.refs),
                     old(DivOf(lp)), old(b.ActiveRefs()))
    ensures b.Outer() == old(b.Outer()) && b.cur == old(b.cur) && Inside(b, lp, end)
    ensures lp.start.target == old(lp.start.target)
    ensures OnlyOwn(b)
    ensures Adds(b.pendingMaybes, old(b.pendingMaybes),
                 Kept(b.lsSlot, s, old(b.Ctx()), lp.origCopy, |old(b.View())|, lp.start.target))
    decreases s, 0
  {
    hide Gen, GenCases, Fits, FitsCases, WellFormed, WellFormedCases, Patch, CasesReady, CasesEmitted, CasesCode,
         Appended, Chained, AllNear, InReach, EndRefs, Emitted', Kept, KeptCases, Adds;
    ghost var g, s0, g1 := b.Ctx(), b.View(), b.Ctx().(pend := false);
    ghost var y := Gen(b.lsSlot, s, g, lp.origCopy);
    ghost var finish := |s0| + |y.code|;
    MatchParts(b.lsSlot, s, g, lp.origCopy, |s0|, brk, cont, end, lp.start.target);
    var m := OpenMatch(b, s.subject, s.scratch, s.cases, lp, g1, y, end);
    EmitOpened(b, m, s.cases, lp, g1, y, brk, cont, old(b.ActiveRefs()), end);
  }

  /** The cases of a match that has been opened, and its end. */
  method EmitOpened(b: Builder, m: Match, cs: Cases, lp: Loop, ghost g: Ctx, ghost y: Out, ghost brk: bool,
                    ghost cont: bool, ghost active: seq<nat>, ghost end: int)
    requires m.nextCase.refs == m.breakLabel.refs == [] && m.orig == b.cur && lp.orig != null
    requires WellFormedCases(cs, brk, cont)
    requires m.block != m.caseBlock && m.block.next != null && m.block.next != b.pending.block
    requires y == GenCases(b.lsSlot, m.subject, m.scratch, cs, true, g.tr, IDLE, g, lp.origCopy) && !y.ctx.pend
    requires CasesReady(b, m, lp, cs, g, g.tr, IDLE, y, |b.View()| + |y.code|, end)
    requires FitsCases(b.lsSlot, m.subject, m.scratch, cs, true, g.tr, IDLE, g, lp.origCopy, |b.View()|,
                       |b.View()| + |y.code|, end, lp.start.target)
    modifies b`instrs, b`stack, b`cur, b`pendingMaybes, b.pending, b.pending.block, b.pending.endLabel,
             b.pending.lsState,
             b.cur, lp.start, lp.end, lp.orig, m`defaultEmitted, m.caseBlock, m.caseState, m.lsState, m.breakLabel,
             m.nextCase
    ensures Emitted'(b, lp, y, old(b.View()), old(lp.end.refs), old(DivOf(lp)), active)
    ensures b.Outer() == m.block.next && m.block.next == old(m.block.next) && b.cur == old(b.cur) && Inside(b, lp, end)
    ensures lp.start.target == old(lp.start.target)
    ensures OnlyOwn(b)
    ensures Adds(b.pendingMaybes, old(b.pendingMaybes),
                 KeptCases(b.lsSlot, m.subject, m.scratch, cs, true, g.tr, IDLE, g, lp.origCopy, |old(b.View())|,
                           lp.start.target))
    decreases cs, 3
  {
    hide Gen, GenCases, Fits, FitsCases, WellFormed, WellFormedCases, Patch, CasesEmitted, CasesCode, Appended, Chained,
         AllNear, InReach,
         EndRefs, Emitted', Kept, KeptCases, Adds, Disjoint;
    ghost var s0, finish, refs, div := b.View(), |b.View()| + |y.code|, lp.end.refs, DivOf(lp);
    EmitCases(b, m, cs, lp, g, g.tr, IDLE, brk, cont, finish, end);
    PatchNothing(s0, |s0| + if cs.NoCase? then 0 else 1);
    PatchNothing(s0, finish);
    FirstCode(cs, g.tr.loads, y);
    CloseMatch(b, m, lp, y, s0, refs, div, active, finish, end);
  }

  lemma FirstCode(cs: Cases, loads: set<Reg>, y: Out)
    ensures CasesCode(cs, true, loads, y) == y.code
  {
  }

  lemma MatchParts(ls: nat, s: Stmt, g: Ctx, head: Ls, at: nat, brk: bool, cont: bool, end: int, start: int)
    requires s.Match? && WellFormed(s, brk, cont) && Fits(ls, s, g, head, at, end, start)
    ensures var g1 := g.(pend := false);
            var y := GenCases(ls, s.subject, s.scratch, s.cases, true, g1.tr, IDLE, g1, head);
            && s.subject != s.scratch && !s.cases.Default? && WellFormedCases(s.cases, brk, cont)
            && Gen(ls, s, g, head) == y && !y.ctx.pend
            && Kept(ls, s, g, head, at, start) == KeptCases(ls, s.subject, s.scratch, s.cases, true, g1.tr, IDLE, g1,
                                                            head, at, start)
            && FitsCases(ls, s.subject, s.scratch, s.cases, true, g1.tr, IDLE, g1, head, at, at + |y.code|, end, start)
  {
    CasesSettled(ls, s.subject, s.scratch, s.cases, true, g.tr, IDLE, g.(pend := false), head);
  }
}