/** Constructs that are outermost blocks themselves: a client need not open a block around them. */
module Outermost {
  import opened Isa
  import opened Structured
  import opened Labels
  import opened B = Builder
  import opened Control
  import opened Constructs
  import opened Driver
  import opened Handles
  import Chunks

  /** Nothing is open, and nothing waits to be sent. */
  ghost predicate Empty(b: Builder)
    reads b, b.pending, b.pending.block, b.pending.endLabel, b.out, b.out.mems
  {
    && b.Valid() && b.stack == null && b.instrs == [] && b.ips == [] && b.lastLoadIpTarget == 0 && b.out.Valid()
  }

  /** The statement can be emitted now. */
  ghost predicate Startable(b: Builder, s: Stmt)
    reads b, b.cur, b.pending, b.pending.lsState, b.out
  {
    var o := Gen(b.lsSlot, s, b.Ctx(), IDLE);
    && WellFormed(s, false, false) && o.ok && Fits(b.lsSlot, s, b.Ctx(), IDLE, 0, |o.code|, 0) && Room(b, |o.code|)
  }

  /** The outermost block has been closed and sent as `whole`, which is the code of `o`. */
  ghost predicate Over(b: Builder, o: Out, whole: seq<Instr>)
    reads b, b.cur, b.pending, b.pending.block, b.pending.endLabel, b.pending.lsState
  {
    && b.Valid() && b.stack == null && Appended(whole, [], o.code, 0)
    && b.cur.now == o.ctx.tr && b.pending.lsState.now == o.ctx.ifLs
  }

  /** Storage for a loop that nothing refers to. */
  method NoLoop(b: Builder, ghost n: nat) returns (lp: Loop)
    requires Empty(b)
    ensures fresh(lp) && fresh(lp.start) && fresh(lp.end) && lp.orig != null && fresh(lp.orig)
    ensures lp.start.target == 0 && lp.end.refs == [] && lp.origCopy == IDLE && lp.orig != b.cur
    ensures b.View() == [] && !b.Active() && b.Calm() && Inside(b, lp, n) && lp.orig.now == IDLE
  {
    hide Patch, Chained, AllNear, Chunks.CommandStream.Valid;
    PatchNothing([], 0);
    lp := new Loop(Always, Val(0, false));
    var tracker := new LsTracker(IDLE);
    lp.start.target := 0;
    lp.orig := tracker;
    ChainedNone(b.instrs, n);
  }

  lemma PlainlyClosable(b: Builder, whole: seq<Instr>)
    requires b.ips == [] && b.lastLoadIpTarget == 0 && b.out.Valid() && Room(b, |whole|)
    ensures b.Closable(whole)
  {
  }

  // ----- Conditionals -----------------------------------------------------------------------------------

  /** The `if` stays pending, for an `else` may follow. */
  method BuildIf(b: Builder, s: Stmt)
    requires s.If? && Empty(b) && Startable(b, s)
    modifies b`instrs, b`stack, b`cur, b`pendingMaybes, b.cur, b.pending, b.pending.block, b.pending.endLabel,
             b.pending.lsState
    ensures b.Valid() && b.Active() && b.Outer() == null && b.cur == old(b.cur) && b.instrs != []
    ensures var o := Gen(b.lsSlot, s, old(b.Ctx()), IDLE);
            && Appended(b.View(), [], o.code, 0) && |b.instrs| == |o.code|
            && b.cur.now == o.ctx.tr && b.pending.lsState.now == o.ctx.ifLs
    ensures Adds(b.pendingMaybes, old(b.pendingMaybes), Kept(b.lsSlot, s, old(b.Ctx()), IDLE, 0, 0)) && OnlyOwn(b)
  {
    hide Gen, Fits, WellFormed, Appended, Chained, AllNear, Patch, Kept, Adds, Chunks.CommandStream.Valid, EndRefs,
         OutIf;
    ghost var g, o := b.Ctx(), Gen(b.lsSlot, s, b.Ctx(), IDLE);
    var lp := NoLoop(b, |o.code|);
    EmitIf(b, s, lp, false, false, |o.code|);
    IfBranches(b.lsSlot, s, g);
    AppendedSize(b.View(), [], o.code, 0);
  }

  /** The next instruction closes it, or the next block, or the end of the stream. */
  method BareIf(b: Builder, s: Stmt) returns (ghost whole: seq<Instr>, ms: seq<MaybeBlock>)
    requires s.If? && Empty(b) && Startable(b, s)
    modifies b, b.cur, b.pending, b.pending.block, b.pending.endLabel, b.pending.lsState, b.FlushFrame()
    ensures Over(b, Gen(b.lsSlot, s, old(b.Ctx()), IDLE), whole) && b.cur == old(b.cur)
    ensures Adds(ms, old(b.pendingMaybes), Kept(b.lsSlot, s, old(b.Ctx()), IDLE, 0, 0))
    ensures forall m :: m in ms ==> m in old(b.pendingMaybes) || fresh(m)
    ensures b.Sent(whole, ms, old(b.Sending()))
  {
    hide Gen, Fits, WellFormed, Appended, Chained, AllNear, Patch, Kept, Adds, Builder.Sent, Builder.Sending,
         Chunks.CommandStream.Valid, EndRefs, Builder.View, Chunks.Extends, Chunks.Behind, Builder.CopiedTo,
         Chunks.Flatten, Chunks.CommandStream.SpaceLeft;
    BuildIf(b, s);
    whole, ms := b.View(), b.pendingMaybes;
    b.FlushPendingIf();
  }

  lemma IfBranches(ls: nat, s: Stmt, g: Structured.Ctx)
    requires s.If? && WellFormed(s, false, false)
    ensures Gen(ls, s, g, IDLE).code != [] && Gen(ls, s, g, IDLE).ctx.pend
  {
  }

  // ----- Loops ------------------------------------------------------------------------------------------

  /** The test in front of the loop. */
  method StartLoop(b: Builder, s: Stmt, ghost p: Piece, ghost x: Out, ghost stop: int) returns (w: Loop)
    requires s.While? && Empty(b) && p == Entry(b.lsSlot, s.cond, s.val, b.cur.now) && x.ok
    requires InReach(p.code, 0, stop, |p.code|) && |p.code| + |x.code| <= stop
    modifies b`instrs, b`stack, b`cur, b.Closing(), b.cur
    ensures fresh(w) && fresh(w.start) && fresh(w.end) && fresh(w.block) && fresh(w.lsState)
    ensures w.cond == s.cond && w.val == s.val
    ensures Ready(b, w, x, stop) && !b.Active() && b.stack == w.block && w.block.next == null && b.View() == b.instrs
    ensures w.orig == old(b.cur) && w.orig.now == w.origCopy == b.cur.now == p.tr && b.cur == w.lsState
    ensures Appended(b.instrs, [], p.code, |p.code|) && w.start.target == |p.code| == |b.instrs|
    ensures w.end.refs == EndRefs(p.code, 0)
  {
    hide Chained, AllNear, InReach, Appended, EndRefs, Patch, GenBranch, Entry, Chunks.CommandStream.Valid;
    var lp := NoLoop(b, stop);
    w := OpenLoop(b, s.cond, s.val, lp, p, x, stop, stop);
    AppendedSize(b.instrs, [], p.code, |p.code|);
  }

  /** The loop with its body, up to where it goes round. */
  method BuildLoop(b: Builder, s: Stmt, ghost p: Piece, ghost x: Out)
    returns (w: Loop, ghost s1: seq<Instr>)
    requires s.While? && Empty(b) && Startable(b, s)
    requires p == Entry(b.lsSlot, s.cond, s.val, b.cur.now)
    requires x == Gen(b.lsSlot, s.body, Ctx(p.tr, b.Ctx().ifLs, false), p.tr)
    modifies b`instrs, b`stack, b`cur, b`pendingMaybes, b.cur, b.pending, b.pending.block, b.pending.endLabel,
             b.pending.lsState
    ensures fresh(w) && fresh(w.start) && fresh(w.end) && fresh(w.block) && fresh(w.lsState)
    ensures w.cond == s.cond && w.val == s.val
    ensures b.Valid() && b.Outer() == w.block && w.block.next == null && w.block != b.pending.block
    ensures b.cur == w.lsState && w.orig == old(b.cur) && w.orig != b.cur && w.origCopy == p.tr
    ensures w.start.target == |p.code| && Appended(s1, [], p.code, |p.code|)
    ensures Emitted'(b, w, x, s1, EndRefs(p.code, 0), p.tr, [])
    ensures var q := Again(b.lsSlot, s.cond, s.val, p.tr, x.ctx.tr).code;
            var end := |b.View()| + |q|;
            && Inside(b, w, end) && InReach(q, |b.View()|, end, |p.code|)
            && end == |Gen(b.lsSlot, s, old(b.Ctx()), IDLE).code|
    ensures Adds(b.pendingMaybes, old(b.pendingMaybes), Kept(b.lsSlot, s, old(b.Ctx()), IDLE, 0, 0)) && OnlyOwn(b)
  {
    hide Gen, Fits, WellFormed, OutWhile, Appended, Chained, AllNear, InReach, EndRefs, Patch, GenBranch, Again,
         Disjoint, Kept, KeptCases, Adds, Chunks.CommandStream.Valid, Emitted', Inside, Entry;
    ghost var ls, g := b.lsSlot, b.Ctx();
    ghost var q := Again(ls, s.cond, s.val, p.tr, x.ctx.tr);
    ghost var stop := |p.code| + |x.code| + |q.code|;
    WhileReach(ls, s, g, IDLE, 0, false, false, |Gen(ls, s, g, IDLE).code|, 0);
    WhileSize(ls, s.cond, s.val, p, x);
    WhileKept(ls, s, g);
    w := StartLoop(b, s, p, x, stop);
    s1 := b.View();
    EmitStmt(b, s.body, w, true, true, stop);
    EmittedSize(b, w, x, s1, EndRefs(p.code, 0), p.tr, []);
  }

  lemma WhileKept(ls: nat, s: Stmt, g: Structured.Ctx)
    requires s.While?
    ensures var p := Entry(ls, s.cond, s.val, g.tr);
            Kept(ls, s, g, IDLE, 0, 0) == Kept(ls, s.body, Ctx(p.tr, g.ifLs, false), p.tr, |p.code|, |p.code|)
  {
    hide GenBranch, Gen, Kept;
    KeptWhile(ls, s, g, IDLE, 0, 0);
  }

  lemma EmittedSize(b: Builder, lp: Loop, o: Out, before: seq<Instr>, refs: seq<nat>, div: Ls, active: seq<nat>)
    requires Emitted'(b, lp, o, before, refs, div, active)
    ensures b.Valid() && |b.View()| == |before| + |o.code|
  {
    hide Appended, EndRefs;
    AppendedSize(b.View(), before, o.code, lp.start.target);
  }

  lemma WhileSize(ls: nat, cond: Cond, val: Val, p: Piece, x: Out)
    ensures |OutWhile(ls, cond, val, p, x).code| == |p.code| + |x.code| + |Again(ls, cond, val, p.tr, x.ctx.tr).code|
  {
    hide GenBranch;
    WhileParts(ls, cond, val, p, x);
  }

  method BareWhile(b: Builder, s: Stmt) returns (ghost whole: seq<Instr>, ms: seq<MaybeBlock>)
    requires s.While? && Empty(b) && Startable(b, s)
    modifies b, b.cur, b.pending, b.pending.block, b.pending.endLabel, b.pending.lsState, b.FlushFrame()
    ensures Over(b, Gen(b.lsSlot, s, old(b.Ctx()), IDLE), whole) && b.cur == old(b.cur)
    ensures Adds(ms, old(b.pendingMaybes), Kept(b.lsSlot, s, old(b.Ctx()), IDLE, 0, 0))
    ensures forall m :: m in ms ==> m in old(b.pendingMaybes) || fresh(m)
    ensures b.Sent(whole, ms, old(b.Sending()))
  {
    hide Gen, Fits, WellFormed, OutWhile, Appended, Chained, AllNear, InReach, EndRefs, Patch, GenBranch, Again,
         Disjoint, Kept, KeptCases, Adds, Chunks.CommandStream.Valid, Builder.Sent, Builder.Sending, Emitted', Inside,
         Over, Room, Entry;
    ghost var ls, g := b.lsSlot, b.Ctx();
    ghost var p := Entry(ls, s.cond, s.val, g.tr);
    ghost var x := Gen(ls, s.body, Ctx(p.tr, g.ifLs, false), p.tr);
    var w;
    ghost var s1;
    w, s1 := BuildLoop(b, s, p, x);
    ms := b.pendingMaybes;
    WhileGen(ls, s, g);
    whole := CloseBareLoop(b, w, p, x, s1);
  }

  /** The way round, and the end of the loop. */
  method CloseBareLoop(b: Builder, w: Loop, ghost p: Piece, ghost x: Out, ghost s1: seq<Instr>)
    returns (ghost whole: seq<Instr>)
    requires b.Valid() && b.Outer() == w.block && w.block.next == null && w.block != b.pending.block
    requires b.cur == w.lsState && w.orig != b.cur && w.origCopy == p.tr
    requires w.start.target == |p.code| && Appended(s1, [], p.code, |p.code|)
    requires Emitted'(b, w, x, s1, EndRefs(p.code, 0), p.tr, [])
    requires var q := Again(b.lsSlot, w.cond, w.val, p.tr, x.ctx.tr).code;
             var end := |b.View()| + |q|;
             Inside(b, w, end) && InReach(q, |b.View()|, end, |p.code|) && Room(b, end)
    requires b.ips == [] && b.lastLoadIpTarget == 0 && b.out.Valid()
    modifies b`instrs, b`stack, b`cur, b.Closing(), b.cur, w.start, w.end, w.orig, Flushed(b, w.block)
    ensures Over(b, OutWhile(b.lsSlot, w.cond, w.val, p, x), whole) && b.cur == w.orig
    ensures b.Sent(whole, old(b.pendingMaybes), old(b.Sending()))
  {
    hide OutWhile, Appended, Chained, AllNear, InReach, EndRefs, Patch, GenBranch, Again, Disjoint,
         Chunks.CommandStream.Valid, Builder.Sent, Builder.Sending;
    ghost var s2, refs := b.View(), w.end.refs;
    PlainlyClosable(b, s2);
    ghost var done := WhileEnd(b, w);
    whole := Patch(done, refs, |done|);
    ChainedNone([], 0);
    LoopDone(b.lsSlot, w.cond, w.val, [], s1, s2, done, p, x, |p.code|, 0, [], NO_POS);
  }

  lemma WhileGen(ls: nat, s: Stmt, g: Structured.Ctx)
    requires s.While?
    ensures var p := Entry(ls, s.cond, s.val, g.tr);
            Gen(ls, s, g, IDLE) == OutWhile(ls, s.cond, s.val, p, Gen(ls, s.body, Ctx(p.tr, g.ifLs, false), p.tr))
  {
    hide GenBranch, OutWhile;
  }

  // ----- Conditionals with an else ------------------------------------------------------------------------

  /** The first body, up to where the second begins. `mid` is the block before the branch between them. */
  method BuildThen(b: Builder, s: Stmt, ghost p: Piece, ghost x: Out, ghost y: Out)
    returns (e: IfElse, lp: Loop, ghost mid: seq<Instr>)
    requires s.IfElse? && Empty(b) && Startable(b, s)
    requires p == GenBranch(b.lsSlot, End, Invert(s.cond), s.val, b.cur.now)
    requires x == Gen(b.lsSlot, s.thn, Ctx(p.tr, b.Ctx().ifLs, false), IDLE)
    requires y == Gen(b.lsSlot, s.els, ElseCtx(p, x), IDLE)
    modifies b`instrs, b`stack, b`cur, b`pendingMaybes, b.cur, b.pending, b.pending.block, b.pending.endLabel,
             b.pending.lsState
    ensures fresh(e) && fresh(e.endLabel) && fresh(e.block) && fresh(e.lsState) && e.orig == old(b.cur)
    ensures fresh(lp) && fresh(lp.start) && fresh(lp.end) && lp.orig != null && fresh(lp.orig)
    ensures lp.start.target == 0 && lp.origCopy == IDLE && lp.end != e.endLabel && lp.start != e.endLabel
    ensures !b.Active() && b.stack == e.block && e.block.next == null && b.View() == b.instrs
    ensures b.Ctx() == ElseCtx(p, x)
    ensures |mid| == |p.code| + |x.code| && |b.View()| == |mid| + 1 && Ready(b, lp, y, |b.View()| + |y.code|)
    ensures Opened(b, e, |b.View()| + |y.code|) && e.endLabel.refs == [|mid|] && lp.orig != e.orig
    ensures Appended(mid, [], Resolve(p.code, |p.code| + |x.code| + 1, 0) + x.code, 0)
    ensures Appended(b.View(), mid, [ToEnd(Always, 0, x.ctx.tr.loads)], 0)
    ensures Adds(b.pendingMaybes, old(b.pendingMaybes),
                 Kept(b.lsSlot, s.thn, Ctx(p.tr, old(b.Ctx()).ifLs, false), IDLE, |p.code|, 0)) && OnlyOwn(b)
  {
    hide Gen, Fits, WellFormed, OutIf, OutIfElse, ElseCtx, Appended, Chained, AllNear, InReach, EndRefs, Patch,
         GenBranch, Disjoint, Resolve, Kept, KeptCases, Adds, Chunks.CommandStream.Valid;
    ghost var ls, g, end := b.lsSlot, b.Ctx(), |p.code| + |x.code| + 1 + |y.code|;
    IfElseParts(ls, s, g, IDLE, 0, false, false, |Gen(ls, s, g, IDLE).code|, 0);
    lp := NoLoop(b, end);
    ghost var s1 := EmitThen(b, s.cond, s.val, s.thn, lp, p, x, false, false, 1, end);
    AppendedSize(s1, [], p.code, 0);
    AppendedSize(b.instrs, s1, x.code, 0);
    e, mid := OpenElse(b, lp, p, x, y, [], s1, [], end);
    AppendedSize(b.View(), mid, [ToEnd(Always, 0, x.ctx.tr.loads)], 0);
  }

  /** The second body and its end. */
  method BuildElse(b: Builder, e: IfElse, els: Stmt, lp: Loop, ghost p: Piece, ghost x: Out, ghost y: Out,
                   ghost mid: seq<Instr>)
    requires !b.Active() && b.stack == e.block && e.block.next == null && b.View() == b.instrs
    requires WellFormed(els, false, false) && y == Gen(b.lsSlot, els, b.Ctx(), IDLE) && lp.origCopy == IDLE
    requires Ready(b, lp, y, |b.View()| + |y.code|) && lp.start.target == 0 && lp.orig != null
    requires Fits(b.lsSlot, els, b.Ctx(), IDLE, |b.View()|, |b.View()| + |y.code|, 0)
    requires Opened(b, e, |b.View()| + |y.code|) && e.endLabel.refs == [|mid|] && lp.orig != e.orig
    requires lp.end != e.endLabel && lp.start != e.endLabel && |b.View()| == |mid| + 1
    modifies b`instrs, b`stack, b`cur, b`pendingMaybes, b.cur, b.pending, b.pending.block, b.pending.endLabel,
             b.pending.lsState, lp.start, lp.end, lp.orig
    ensures b.Valid() && b.Outer() == e.block && b.Ctx() == y.ctx && b.cur == old(b.cur)
    ensures Opened(b, e, |b.View()|) && Disjoint(b.ActiveRefs(), e.endLabel.refs)
    ensures Appended(b.View(), old(b.View()), y.code, 0)
    ensures Adds(b.pendingMaybes, old(b.pendingMaybes), Kept(b.lsSlot, els, old(b.Ctx()), IDLE, |old(b.View())|, 0))
    ensures OnlyOwn(b)
  {
    hide Gen, Fits, WellFormed, ElseCtx, Appended, Chained, AllNear, InReach, EndRefs, Patch, Disjoint, Kept, KeptCases,
         Adds;
    ghost var s3 := b.View();
    EmitStmt(b, els, lp, false, false, |s3| + |y.code|);
    AppendedSize(b.View(), s3, y.code, 0);
    ChainedAppended(b.View(), s3, y.code, 0, e.endLabel.refs, e.endLabel.lastForwardRef);
    LaterApart(b.ActiveRefs(), |mid|);
  }

  lemma LaterApart(active: seq<nat>, mid: nat)
    requires Later(active, [], mid + 1)
    ensures Disjoint(active, [mid])
  {
  }

  /** Both bodies. */
  method BuildBoth(b: Builder, s: Stmt, ghost p: Piece, ghost x: Out, ghost y: Out)
    returns (e: IfElse, ghost mid: seq<Instr>, ghost s3: seq<Instr>)
    requires s.IfElse? && Empty(b) && Startable(b, s)
    requires p == GenBranch(b.lsSlot, End, Invert(s.cond), s.val, b.cur.now)
    requires x == Gen(b.lsSlot, s.thn, Ctx(p.tr, b.Ctx().ifLs, false), IDLE)
    requires y == Gen(b.lsSlot, s.els, ElseCtx(p, x), IDLE)
    modifies b`instrs, b`stack, b`cur, b`pendingMaybes, b.cur, b.pending, b.pending.block, b.pending.endLabel,
             b.pending.lsState
    ensures fresh(e) && fresh(e.endLabel) && fresh(e.block) && fresh(e.lsState) && e.orig == old(b.cur)
    ensures b.Valid() && b.Outer() == e.block && e.block.next == null && b.Ctx() == y.ctx
    ensures Opened(b, e, |b.View()|) && Disjoint(b.ActiveRefs(), e.endLabel.refs) && e.endLabel.refs == [|mid|]
    ensures Appended(mid, [], Resolve(p.code, |p.code| + |x.code| + 1, 0) + x.code, 0)
    ensures Appended(s3, mid, [ToEnd(Always, 0, x.ctx.tr.loads)], 0) && Appended(b.View(), s3, y.code, 0)
    ensures |b.View()| == |p.code| + |x.code| + 1 + |y.code|
    ensures Adds(b.pendingMaybes, old(b.pendingMaybes), Kept(b.lsSlot, s, old(b.Ctx()), IDLE, 0, 0)) && OnlyOwn(b)
  {
    hide Gen, Fits, WellFormed, OutIf, OutIfElse, ElseCtx, Appended, Chained, AllNear, InReach, EndRefs, Patch,
         GenBranch, Disjoint, Resolve, Kept, KeptCases, Adds, Chunks.CommandStream.Valid, Ready;
    ghost var ls, g, was := b.lsSlot, b.Ctx(), b.pendingMaybes;
    IfElseParts(ls, s, g, IDLE, 0, false, false, |Gen(ls, s, g, IDLE).code|, 0);
    KeptElse(ls, s, g, IDLE, 0, 0);
    var lp;
    e, lp, mid := BuildThen(b, s, p, x, y);
    s3 := b.View();
    ghost var half := b.pendingMaybes;
    BuildElse(b, e, s.els, lp, p, x, y, mid);
    AppendedSize(b.View(), s3, y.code, 0);
    AddsMore(was, half, b.pendingMaybes, Kept(ls, s.thn, Ctx(p.tr, g.ifLs, false), IDLE, |p.code|, 0),
             Kept(ls, s.els, ElseCtx(p, x), IDLE, |p.code| + |x.code| + 1, 0));
  }

  method BareElse(b: Builder, s: Stmt) returns (ghost whole: seq<Instr>, ms: seq<MaybeBlock>)
    requires s.IfElse? && Empty(b) && Startable(b, s)
    modifies b, b.cur, b.pending, b.pending.block, b.pending.endLabel, b.pending.lsState, b.FlushFrame()
    ensures Over(b, Gen(b.lsSlot, s, old(b.Ctx()), IDLE), whole) && b.cur == old(b.cur)
    ensures Adds(ms, old(b.pendingMaybes), Kept(b.lsSlot, s, old(b.Ctx()), IDLE, 0, 0))
    ensures forall m :: m in ms ==> m in old(b.pendingMaybes) || fresh(m)
    ensures b.Sent(whole, ms, old(b.Sending()))
  {
    hide Gen, Fits, WellFormed, OutIf, OutIfElse, ElseCtx, Appended, Chained, AllNear, InReach, EndRefs, Patch,
         GenBranch, Disjoint, Resolve, Kept, KeptCases, Adds, Chunks.CommandStream.Valid, Builder.Sent, Builder.Sending;
    ghost var ls, g := b.lsSlot, b.Ctx();
    ghost var p := GenBranch(ls, End, Invert(s.cond), s.val, g.tr);
    ghost var x := Gen(ls, s.thn, Ctx(p.tr, g.ifLs, false), IDLE);
    ghost var y := Gen(ls, s.els, ElseCtx(p, x), IDLE);
    IfElseParts(ls, s, g, IDLE, 0, false, false, |Gen(ls, s, g, IDLE).code|, 0);
    var e;
    ghost var mid, s3;
    e, mid, s3 := BuildBoth(b, s, p, x, y);
    ms := b.pendingMaybes;
    whole := CloseBareElse(b, e, p, x, y, mid, s3);
  }

  method CloseBareElse(b: Builder, e: IfElse, ghost p: Piece, ghost x: Out, ghost y: Out, ghost mid: seq<Instr>,
                       ghost s3: seq<Instr>) returns (ghost whole: seq<Instr>)
    requires b.Valid() && b.Outer() == e.block && e.block.next == null && b.Ctx() == y.ctx
    requires Opened(b, e, |b.View()|) && Disjoint(b.ActiveRefs(), e.endLabel.refs) && e.endLabel.refs == [|mid|]
    requires Appended(mid, [], Resolve(p.code, |p.code| + |x.code| + 1, 0) + x.code, 0)
    requires Appended(s3, mid, [ToEnd(Always, 0, x.ctx.tr.loads)], 0) && Appended(b.View(), s3, y.code, 0)
    requires b.ips == [] && b.lastLoadIpTarget == 0 && b.out.Valid() && Room(b, |b.View()|)
    modifies b`instrs, b`stack, b`cur, b.Closing(), e.endLabel, e.orig, Flushed(b, e.block)
    ensures Over(b, OutIfElse(p, x, y), whole) && b.cur == e.orig && e.orig == old(e.orig)
    ensures b.Sent(whole, old(b.pendingMaybes), old(b.Sending()))
  {
    hide Appended, Chained, AllNear, InReach, EndRefs, Patch, Disjoint, Resolve, Chunks.CommandStream.Valid,
         Builder.Sent, Builder.Sending;
    ghost var s4 := b.View();
    PlainlyClosable(b, s4);
    ElseCode([], mid, s3, s4, Resolve(p.code, |p.code| + |x.code| + 1, 0) + x.code, y.code, x.ctx.tr.loads, 0);
    ElseParts(p, x, y, 0);
    whole := Patch(s4, [|mid|], |s4|);
    ElseEnd(b, e);
  }

  // ----- Maybe blocks -------------------------------------------------------------------------------------

  method BuildMaybe(b: Builder, s: Stmt, ghost x: Out) returns (st: MaybeState)
    requires s.Maybe? && Empty(b) && Startable(b, s)
    requires x == Gen(b.lsSlot, s.body, b.Ctx(), IDLE)
    modifies b`instrs, b`stack, b`cur, b`pendingMaybes, b.cur, b.pending, b.pending.block, b.pending.endLabel,
             b.pending.lsState
    ensures fresh(st) && fresh(st.block) && fresh(st.lsState) && st.orig == old(b.cur) && st.patchPos == 0
    ensures b.Valid() && b.stack == st.block && st.block.next == null && st.block != b.pending.block
    ensures b.cur == st.lsState && b.cur != st.orig && st.orig != b.pending.lsState && st.orig.now == old(b.cur.now)
    ensures b.Ctx() == x.ctx && Appended(b.instrs, [], x.code, 0) && EndRefs(x.code, 0) == []
    ensures Adds(b.pendingMaybes, old(b.pendingMaybes), Kept(b.lsSlot, s.body, old(b.Ctx()), IDLE, 0, 0)) && OnlyOwn(b)
  {
    hide Gen, Fits, WellFormed, OutMaybe, Appended, Chained, AllNear, InReach, EndRefs, Patch, Kept, KeptCases, Adds,
         Chunks.CommandStream.Valid;
    ghost var ls, g := b.lsSlot, b.Ctx();
    MaybeReach(ls, s, g, IDLE, 0, false, false, |Gen(ls, s, g, IDLE).code|, 0);
    var lp := NoLoop(b, |Gen(ls, s, g, IDLE).code|);
    st := new MaybeState(b.cur);
    MaybeStart(b, st);
    EmitStmt(b, s.body, lp, false, false, |Gen(ls, s, g, IDLE).code|);
    PatchNothing(b.instrs, |b.instrs|);
    AppendedSize(b.View(), [], x.code, 0);
  }

  /** A maybe block is left out when it is closed; it can be patched in its chunk afterwards. */
  method BareMaybe(b: Builder, s: Stmt) returns (ghost whole: seq<Instr>, ms: seq<MaybeBlock>)
    requires s.Maybe? && !s.patched && Empty(b) && Startable(b, s)
    modifies b, b.cur, b.pending, b.pending.block, b.pending.endLabel, b.pending.lsState, b.FlushFrame()
    ensures Over(b, Gen(b.lsSlot, s, old(b.Ctx()), IDLE), whole) && b.cur == old(b.cur)
    ensures Adds(ms, old(b.pendingMaybes), Kept(b.lsSlot, s, old(b.Ctx()), IDLE, 0, 0))
    ensures forall m :: m in ms ==> m in old(b.pendingMaybes) || fresh(m)
    ensures b.Sent(whole, ms, old(b.Sending()))
  {
    hide Gen, Fits, WellFormed, OutMaybe, Appended, Chained, AllNear, InReach, EndRefs, Patch, Kept, KeptCases, Adds,
         Chunks.CommandStream.Valid, Builder.Sent, Builder.Sending, Placed;
    ghost var ls, g := b.lsSlot, b.Ctx();
    ghost var x := Gen(ls, s.body, g, IDLE);
    MaybeReach(ls, s, g, IDLE, 0, false, false, |Gen(ls, s, g, IDLE).code|, 0);
    var st := BuildMaybe(b, s, x);
    ghost var half := b.pendingMaybes;
    whole, ms := CloseBareMaybe(b, st, s.patched, g.tr, x);
    AddsMore(old(b.pendingMaybes), half, ms, Kept(ls, s.body, g, IDLE, 0, 0),
             [Handle(0, Placed(x.code + MaybeWait(ls, g.tr, x).code, 0, 0))]);
  }

  method CloseBareMaybe(b: Builder, st: MaybeState, ghost patched: bool, ghost orig: Ls, ghost x: Out)
    returns (ghost whole: seq<Instr>, ms: seq<MaybeBlock>)
    requires b.Valid() && b.stack == st.block && st.block.next == null && st.block != b.pending.block && !patched
    requires b.cur == st.lsState && b.cur != st.orig && st.orig != b.pending.lsState && st.orig.now == orig
    requires b.Ctx() == x.ctx && Appended(b.instrs, [], x.code, 0) && EndRefs(x.code, 0) == [] && st.patchPos == 0
    requires b.ips == [] && b.lastLoadIpTarget == 0 && b.out.Valid()
    requires Room(b, |OutMaybe(b.lsSlot, patched, orig, x).code|)
    modifies b`instrs, b`stack, b`cur, b`pendingMaybes, b.cur, Flushed(b, st.block)
    ensures Over(b, OutMaybe(b.lsSlot, patched, orig, x), whole) && b.cur == st.orig
    ensures Adds(ms, old(b.pendingMaybes), [Handle(0, Placed(x.code + MaybeWait(b.lsSlot, orig, x).code, 0, 0))])
    ensures forall m :: m in ms ==> m in old(b.pendingMaybes) || fresh(m)
    ensures b.Sent(whole, ms, old(b.Sending()))
  {
    hide Appended, Chained, AllNear, InReach, EndRefs, Patch, Adds, Chunks.CommandStream.Valid, Builder.Sent,
         Builder.Sending, Builder.Closable, Placed, OutMaybe, Nops, OwnWait, MaybeWait;
    ghost var was := b.instrs;
    BareMaybeCode(b.lsSlot, was, x, orig);
    whole := Nops(|was| + |OwnWait(b.lsSlot, orig, x.ctx.tr)|);
    assert was[..0] + whole == whole && was[0..] == was;
    PlainlyClosable(b, whole);
    ms := b.pendingMaybes;
    var m := MaybeEnd(b, st);
    AddsOne(m, ms, Handle(0, Placed(x.code + MaybeWait(b.lsSlot, orig, x).code, 0, 0)));
    ms := [m] + ms;
  }

  lemma BareMaybeCode(ls: nat, was: seq<Instr>, x: Out, orig: Ls)
    requires Appended(was, [], x.code, 0) && EndRefs(x.code, 0) == []
    ensures var w := OwnWait(ls, orig, x.ctx.tr);
            var o := OutMaybe(ls, false, orig, x);
            && |o.code| == |was + w| && Appended(Nops(|was + w|), [], o.code, 0)
            && o.ctx == Ctx(orig, x.ctx.ifLs, false)
            && was + w == Placed(x.code + MaybeWait(ls, orig, x).code, 0, 0)
  {
    hide Appended, EndRefs, Placed, Blank;
    var need := x.ctx.tr.loads - orig.loads != {} || (x.ctx.tr.stores && !orig.stores);
    AppendedSize(was, [], x.code, 0);
    MaybeCode([], was, x.code, ls, need, x.ctx.tr, orig.loads, 0);
    var n := |was + OwnWait(ls, orig, x.ctx.tr)|;
    assert was[0..] == was && [] + Nops(n) == Nops(n);
  }

  lemma AddsOne(m: MaybeBlock, was: seq<MaybeBlock>, h: Handle)
    requires m.patchPos == h.at && m.instrs == h.instrs
    ensures Adds([m] + was, was, [h])
  {
  }

  // ----- Matches ------------------------------------------------------------------------------------------

  /** The cases of a match. */
  method BuildMatch(b: Builder, s: Stmt, ghost y: Out) returns (m: Match, lp: Loop)
    requires s.Match? && Empty(b) && Startable(b, s) && y == Gen(b.lsSlot, s, b.Ctx(), IDLE)
    modifies b`instrs, b`stack, b`cur, b`pendingMaybes, b.cur, b.pending, b.pending.block, b.pending.endLabel,
             b.pending.lsState
    ensures fresh(m) && fresh(m.block) && fresh(m.caseBlock) && fresh(m.breakLabel) && fresh(m.nextCase)
    ensures fresh(m.caseState) && fresh(m.lsState) && m.orig == old(b.cur) && m.block.next == null
    ensures m.block != b.pending.block && lp.start.target == 0
    ensures CasesEmitted(b, m, lp, y, y.code, [], [], IDLE, |y.code|, |y.code|)
    ensures Adds(b.pendingMaybes, old(b.pendingMaybes), Kept(b.lsSlot, s, old(b.Ctx()), IDLE, 0, 0)) && OnlyOwn(b)
  {
    hide Gen, GenCases, Fits, FitsCases, WellFormed, WellFormedCases, Patch, CasesReady, CasesEmitted, CasesCode,
         Appended, Chained, AllNear, InReach, EndRefs, Kept, KeptCases, Adds, Chunks.CommandStream.Valid;
    ghost var g := b.Ctx();
    MatchParts(b.lsSlot, s, g, IDLE, 0, false, false, |y.code|, 0);
    lp := NoLoop(b, |y.code|);
    m := OpenMatch(b, s.subject, s.scratch, s.cases, lp, g, y, |y.code|);
    EmitCases(b, m, s.cases, lp, g, g.tr, IDLE, false, false, |y.code|, |y.code|);
    PatchNothing([], if s.cases.NoCase? then 0 else 1);
    PatchNothing([], |y.code|);
    FirstCode(s.cases, g.tr.loads, y);
  }

  method BareMatch(b: Builder, s: Stmt) returns (ghost whole: seq<Instr>, ms: seq<MaybeBlock>)
    requires s.Match? && Empty(b) && Startable(b, s)
    modifies b, b.cur, b.pending, b.pending.block, b.pending.endLabel, b.pending.lsState, b.FlushFrame()
    ensures Over(b, Gen(b.lsSlot, s, old(b.Ctx()), IDLE), whole) && b.cur == old(b.cur)
    ensures Adds(ms, old(b.pendingMaybes), Kept(b.lsSlot, s, old(b.Ctx()), IDLE, 0, 0))
    ensures forall m :: m in ms ==> m in old(b.pendingMaybes) || fresh(m)
    ensures b.Sent(whole, ms, old(b.Sending()))
  {
    hide Gen, GenCases, Fits, FitsCases, WellFormed, WellFormedCases, Patch, CasesReady, CasesEmitted, CasesCode,
         Appended, Chained, AllNear, InReach, EndRefs, Kept, KeptCases, Adds, Chunks.CommandStream.Valid, Builder.Sent,
         Builder.Sending;
    ghost var y := Gen(b.lsSlot, s, b.Ctx(), IDLE);
    var m, lp := BuildMatch(b, s, y);
    ms := b.pendingMaybes;
    whole := CloseBareMatch(b, m, lp, y);
  }

  method CloseBareMatch(b: Builder, m: Match, ghost lp: Loop, ghost y: Out) returns (ghost whole: seq<Instr>)
    requires CasesEmitted(b, m, lp, y, y.code, [], [], IDLE, |y.code|, |y.code|) && lp.start.target == 0
    requires m.block.next == null && m.block != b.pending.block
    requires b.ips == [] && b.lastLoadIpTarget == 0 && b.out.Valid() && Room(b, |y.code|)
    modifies b`instrs, b`stack, b`cur, m.breakLabel, m.nextCase, m.lsState, m.orig, Flushed(b, m.block)
    ensures Over(b, y, whole) && b.cur == m.orig && m.orig == old(m.orig)
    ensures b.Sent(whole, old(b.pendingMaybes), old(b.Sending()))
  {
    hide Chained, AllNear, InReach, Appended, EndRefs, Patch, Disjoint, Chunks.CommandStream.Valid, Builder.Sent,
         Builder.Sending;
    PlainlyClosable(b, b.instrs);
    ghost var n := |b.instrs|;
    whole := Patch(Patch(b.instrs, m.nextCase.refs, n), m.breakLabel.refs, n);
    MatchEnd(b, m);
  }

  // ----- Any of them --------------------------------------------------------------------------------------

  /** What can stand outside any block. A maybe block is patched by a call of its own. */
  predicate Construct(s: Stmt) {
    s.If? || s.IfElse? || s.While? || s.Match? || (s.Maybe? && !s.patched)
  }

  /** A construct outside any block comes out as the same code as inside one, and goes to the stream at its end. */
  method EmitConstruct(b: Builder, s: Stmt) returns (ghost whole: seq<Instr>, ms: seq<MaybeBlock>)
    requires Construct(s) && Empty(b) && Startable(b, s)
    modifies b, b.cur, b.pending, b.pending.block, b.pending.endLabel, b.pending.lsState, b.FlushFrame()
    ensures Over(b, Gen(b.lsSlot, s, old(b.Ctx()), IDLE), whole) && b.cur == old(b.cur)
    ensures Adds(ms, old(b.pendingMaybes), Kept(b.lsSlot, s, old(b.Ctx()), IDLE, 0, 0))
    ensures forall m :: m in ms ==> m in old(b.pendingMaybes) || fresh(m)
    ensures b.Sent(whole, ms, old(b.Sending()))
  {
    hide Gen, Startable, Over, Adds, Kept, Builder.Sent, Builder.Sending, Empty;
    EmptyValid(b);
    match s
    case If(_, _, _) => whole, ms := BareIf(b, s);
    case IfElse(_, _, _, _) => whole, ms := BareElse(b, s);
    case While(_, _, _) => whole, ms := BareWhile(b, s);
    case Match(_, _, _) => whole, ms := BareMatch(b, s);
    case Maybe(_, _) => whole, ms := BareMaybe(b, s);
  }

  lemma EmptyValid(b: Builder)
    requires Empty(b)
    ensures b.out.Valid()
  {
  }
}
