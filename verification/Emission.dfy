/** A function in the order the builder emits it: the code in front of the body comes last, so that it is
    emitted under the tracker the body leaves behind. */
module Emission {
  import opened Isa
  import opened Structured
  import opened Functions
  import opened Preservation
  import opened Sequences
  import Arith
  import Lists
  import Linking
  import opened Bits
  import Tidy

  /** In front of the body: the address of the dump area, the stores, and a wait for them. */
  function Preamble(ctx: Reg, off: int, addr: Reg, starts: seq<nat>, masks: seq<seq<bool>>): Stmt
    requires |starts| == |masks|
  {
    Stmt.Seq(Op(Load(addr, ctx, Lists.TWO, off)), Stmt.Seq(Arith.Ops(Saves(starts, masks, addr, |starts|)),
                                                           FlushStores))
  }

  /** The three parts, generated in the order body, preamble, postamble. */
  datatype Parts = Parts(pre: Out, body: Out, post: Out)

  function Generated(ls: nat, ctx: Reg, off: int, addr: Reg, starts: seq<nat>, masks: seq<seq<bool>>, body: Stmt,
                     g: Ctx): Parts
    requires |starts| == |masks|
  {
    var x := Gen(ls, body, g, IDLE);
    var pre := Gen(ls, Preamble(ctx, off, addr, starts, masks), Between(x.ctx), IDLE);
    Parts(pre, x, Gen(ls, Epilogue(ctx, off, addr, starts, masks), Between(pre.ctx), IDLE))
  }

  /** The instructions, in the order in which they are in the stream. */
  function Code(p: Parts): (r: seq<Instr>)
    ensures |r| == |p.pre.code| + |p.body.code| + |p.post.code|
  {
    Finish(p.pre.code) + (Finish(p.body.code) + Finish(p.post.code))
  }

  /** What the builder counts: the body, two instructions a group, and four more. */
  function Counted(p: Parts, groups: nat): nat {
    |p.body.code| + 2 * groups + 4
  }

  /** The recorded length: that, rounded up to a cache line of eight instructions. */
  function Length(counted: nat): nat {
    (counted + 7) / 8 * 8
  }

  /** The function with the NOPs behind it. */
  function Emitted(p: Parts, groups: nat): seq<Instr> {
    Code(p) + seq(Length(Counted(p, groups)) - Counted(p, groups), _ => Nop)
  }

  /** What a call with that length runs of it, as far as there are that many instructions. */
  function Called(all: seq<Instr>, length: nat): seq<Instr> {
    if length < |all| then all[..length] else all
  }

  // ----- How many instructions there are ----------------------------------------------------------------

  /** Stores: the first waits for the address. */
  lemma {:induction false} SavesCode(ls: nat, starts: seq<nat>, masks: seq<seq<bool>>, addr: Reg, n: nat, g: Ctx,
                                     head: Ls)
    requires n <= |starts| == |masks| && addr in g.tr.loads && forall k :: 0 <= k < n ==> true in masks[k]
    ensures var o := Gen(ls, Arith.Ops(Saves(starts, masks, addr, n)), g, head);
            if n == 0 then o.code == [] && o.ctx == g
            else |o.code| == n + 1 && o.ctx == Ctx(Ls({}, true), g.ifLs, false)
    decreases n
  {
    hide Clash, GenOp;
    if n > 0 {
      SavesCode(ls, starts, masks, addr, n - 1, g, head);
      var before, i := Saves(starts, masks, addr, n - 1), Store(starts[n - 1], addr, masks[n - 1],
                                                                Offset(masks, n - 1));
      OpsMore(ls, before, i, g, head);
      StoreCode(ls, i, Gen(ls, Arith.Ops(before), g, head).ctx.tr);
    }
  }

  lemma OpsMore(ls: nat, ops: seq<Instr>, i: Instr, g: Ctx, head: Ls)
    ensures var o := Gen(ls, Arith.Ops(ops), g, head);
            var p := GenOp(ls, i, o.ctx.tr);
            var all := Gen(ls, Arith.Ops(ops + [i]), g, head);
            all.code == o.code + p.code && all.ctx == Ctx(p.tr, o.ctx.ifLs, false)
  {
    hide GenOp;
    assert (ops + [i])[..|ops|] == ops;
  }

  lemma StoreCode(ls: nat, i: Instr, tr: Ls)
    requires i.Store? && true in i.mask && (tr.loads == {} || i.addr in tr.loads)
    ensures var p := GenOp(ls, i, tr);
            |p.code| == (if tr.loads == {} then 1 else 2) && p.tr == Ls({}, true)
  {
    if tr.loads != {} { assert i.addr in Operands(i)[1] * tr.loads; }
  }

  /** Loads: the first waits for the address, no other for anything. */
  lemma {:induction false} RestoresCode(ls: nat, dirty: seq<bool>, nregs: nat, starts: seq<nat>, masks: seq<seq<bool>>,
                                        addr: Reg, n: nat, g: Ctx, head: Ls)
    requires Groups(dirty, nregs, starts, masks) && n <= |starts| == |masks| && nregs <= addr
    requires g.tr == Ls({addr, addr + 1}, false)
    ensures var o := Gen(ls, Arith.Ops(Restores(starts, masks, addr, n)), g, head);
            if n == 0 then o.code == [] && o.ctx == g
            else && |o.code| == n + 1 && o.ctx.tr.loads != {} && !o.ctx.tr.stores && o.ctx.ifLs == g.ifLs && !o.ctx.pend
                 && (forall r :: r in o.ctx.tr.loads ==> r < starts[n - 1] + |masks[n - 1]|)
                 && o.code[n].Emit? && o.code[n].i == Load(starts[n - 1], addr, masks[n - 1], Offset(masks, n - 1))
    decreases n
  {
    hide Clash, GenOp, Groups;
    if n > 0 {
      RestoresCode(ls, dirty, nregs, starts, masks, addr, n - 1, g, head);
      var before, i := Restores(starts, masks, addr, n - 1), Load(starts[n - 1], addr, masks[n - 1],
                                                                  Offset(masks, n - 1));
      OpsMore(ls, before, i, g, head);
      GroupAt(dirty, nregs, starts, masks, n - 1);
      InOrder(dirty, nregs, starts, masks, n - 1);
      LoadCode(ls, i, Gen(ls, Arith.Ops(before), g, head).ctx.tr, n > 1);
    }
  }

  lemma InOrder(dirty: seq<bool>, nregs: nat, starts: seq<nat>, masks: seq<seq<bool>>, k: nat)
    requires Groups(dirty, nregs, starts, masks) && k < |starts|
    ensures |starts| == |masks| && starts[k] + |masks[k]| <= nregs && true in masks[k]
    ensures k > 0 ==> starts[k - 1] + |masks[k - 1]| <= starts[k]
  {
    assert IsGroup(dirty, nregs, starts[k], masks[k]);
  }

  lemma LoadCode(ls: nat, i: Instr, tr: Ls, later: bool)
    requires i.Load? && true in i.mask && i.base + |i.mask| <= i.addr && !tr.stores
    requires if later then forall r :: r in tr.loads ==> r < i.base else tr.loads == {i.addr, i.addr + 1}
    ensures var p := GenOp(ls, i, tr);
            && |p.code| == (if later then 1 else 2) && p.code[|p.code| - 1] == Emit(i, if later then tr.loads else {})
            && p.tr.loads != {} && !p.tr.stores && forall r :: r in p.tr.loads ==> r < i.base + |i.mask|
  {
    var k :| 0 <= k < |i.mask| && i.mask[k];
    assert i.base + k in Row(i.base, i.mask);
    if later {
      forall j | 0 <= j < |Operands(i)| ensures Operands(i)[j] * tr.loads == {} {
        forall r | r in Operands(i)[j] ensures r !in tr.loads {}
      }
    } else {
      assert i.addr in Operands(i)[1] * tr.loads;
    }
  }

  /** Whether the preamble has to wait for a load the body left in flight. */
  function Late(ctx: Reg, off: int, addr: Reg, body: Out): nat {
    if Clash(Load(addr, ctx, Lists.TWO, off), body.ctx.tr.loads) then 1 else 0
  }

  lemma PairRow(r: Reg)
    ensures Row(r, Lists.TWO) == {r, r + 1}
  {
    Lists.RowHas(r, Lists.TWO, 0);
    Lists.RowHas(r, Lists.TWO, 1);
  }

  lemma AddressCode(ls: nat, ctx: Reg, off: int, addr: Reg, tr: Ls)
    ensures var i := Load(addr, ctx, Lists.TWO, off);
            var p := GenOp(ls, i, tr);
            && |p.code| == (if Clash(i, tr.loads) then 2 else 1) && addr in p.tr.loads
            && (tr == IDLE ==> |p.code| == 1 && p.tr == Ls({addr, addr + 1}, false))
  {
    PairRow(addr);
    assert !Clash(Load(addr, ctx, Lists.TWO, off), {});
  }

  /** One instruction, some more, and a flush. */
  lemma ThreeCode(ls: nat, i: Instr, ops: seq<Instr>, flush: Stmt, g: Ctx)
    ensures var p := GenOp(ls, i, g.tr);
            var x := Gen(ls, Arith.Ops(ops), g.(tr := p.tr, pend := false), IDLE);
            var y := Gen(ls, flush, x.ctx, IDLE);
            var o := Gen(ls, Stmt.Seq(Op(i), Stmt.Seq(Arith.Ops(ops), flush)), g, IDLE);
            o.code == p.code + (x.code + y.code) && o.ctx == y.ctx
  {
    hide GenOp;
    var g1 := g.(tr := GenOp(ls, i, g.tr).tr, pend := false);
    assert Gen(ls, Op(i), g, IDLE) == Out(GenOp(ls, i, g.tr).code, g1, IDLE, true);
  }

  lemma FlushCode(ls: nat, flush: Stmt, g: Ctx)
    requires flush.FlushLoads? || flush.FlushStores?
    ensures var o := Gen(ls, flush, g, IDLE);
            (if flush.FlushLoads? then g.tr.loads != {} else g.tr.stores) ==>
              (|o.code| == 1 && o.ctx.tr == IDLE && o.code[0].Emit? && o.code[0].i == Wait({ls}))
  {
  }

  lemma PreambleCode(ls: nat, dirty: seq<bool>, nregs: nat, starts: seq<nat>, masks: seq<seq<bool>>, ctx: Reg, off: int,
                     addr: Reg, g: Ctx)
    requires Groups(dirty, nregs, starts, masks) && |starts| == |masks| && starts != []
    ensures var o := Gen(ls, Preamble(ctx, off, addr, starts, masks), g, IDLE);
            |o.code| == |starts| + 3 + (if Clash(Load(addr, ctx, Lists.TWO, off), g.tr.loads) then 1 else 0)
                && o.ctx.tr == IDLE
  {
    hide Clash, GenOp, Groups, Gen;
    var n, i, ops := |starts|, Load(addr, ctx, Lists.TWO, off), Saves(starts, masks, addr, |starts|);
    AddressCode(ls, ctx, off, addr, g.tr);
    forall k | 0 <= k < n ensures true in masks[k] { InOrder(dirty, nregs, starts, masks, k); }
    var g1 := g.(tr := GenOp(ls, i, g.tr).tr, pend := false);
    SavesCode(ls, starts, masks, addr, n, g1, IDLE);
    FlushCode(ls, FlushStores, Gen(ls, Arith.Ops(ops), g1, IDLE).ctx);
    ThreeCode(ls, i, ops, FlushStores, g);
  }

  /** The last two instructions: the last group, and the wait for all of them. */
  lemma EpilogueCode(ls: nat, dirty: seq<bool>, nregs: nat, starts: seq<nat>, masks: seq<seq<bool>>, ctx: Reg, off: int,
                     addr: Reg, g: Ctx)
    requires Groups(dirty, nregs, starts, masks) && |starts| == |masks| && starts != [] && nregs <= addr && g.tr == IDLE
    ensures var code := Finish(Gen(ls, Epilogue(ctx, off, addr, starts, masks), g, IDLE).code);
            var n := |starts|;
            && |code| == n + 3 && code[n + 2] == Wait({ls})
            && code[n + 1] == Load(starts[n - 1], addr, masks[n - 1], Offset(masks, n - 1))
  {
    hide Clash, GenOp, Groups, Finish, Gen;
    var n, i, ops := |starts|, Load(addr, ctx, Lists.TWO, off), Restores(starts, masks, addr, |starts|);
    AddressCode(ls, ctx, off, addr, g.tr);
    var g1 := g.(tr := GenOp(ls, i, g.tr).tr, pend := false);
    RestoresCode(ls, dirty, nregs, starts, masks, addr, n, g1, IDLE);
    var x := Gen(ls, Arith.Ops(ops), g1, IDLE);
    FlushCode(ls, FlushLoads, x.ctx);
    ThreeCode(ls, i, ops, FlushLoads, g);
    var all := Gen(ls, Epilogue(ctx, off, addr, starts, masks), g, IDLE).code;
    assert all[n + 1] == x.code[n] && all[n + 2] == Gen(ls, FlushLoads, x.ctx, IDLE).code[0];
    FinishAt(all, n + 1);
    FinishAt(all, n + 2);
  }

  lemma FinishAt(code: seq<Item>, k: nat)
    requires k < |code| && code[k].Emit?
    ensures Finish(code)[k] == code[k].i
  {
  }

  // ----- Calling it -----------------------------------------------------------------------------------

  /** A call with the recorded length runs all of the function exactly when the padding makes up for the two
      instructions, or three, that were not counted. Otherwise it stops short: before the wait for the
      registers it restores, or before the last group of them is loaded at all. */
  lemma CallLength(ls: nat, dirty: seq<bool>, nregs: nat, starts: seq<nat>, masks: seq<seq<bool>>, ctx: Reg, off: int,
                   addr: Reg, body: Stmt, g: Ctx)
    requires Groups(dirty, nregs, starts, masks) && |starts| == |masks| && starts != [] && nregs <= addr
    ensures var p := Generated(ls, ctx, off, addr, starts, masks, body, g);
            var n, m, late, code := |starts|, Counted(p, |starts|), Late(ctx, off, addr, p.body), Code(p);
            var called := Called(Emitted(p, n), Length(m));
            && |code| == m + 2 + late
            && (code <= called <==> (m + 2 + late + 7) / 8 == (m + 7) / 8)
            && (late == 0 && m % 8 == 7 ==> called == code[..|code| - 1] && code[|code| - 1] == Wait({ls}))
            && (late == 0 && m % 8 == 0 ==>
                  && called == code[..|code| - 2] && code[|code| - 1] == Wait({ls})
                  && code[|code| - 2] == Load(starts[n - 1], addr, masks[n - 1], Offset(masks, n - 1)))
  {
    hide Gen, Groups, Preamble, Epilogue, Clash, Finish;
    var p := Generated(ls, ctx, off, addr, starts, masks, body, g);
    var m := Counted(p, |starts|);
    PreambleCode(ls, dirty, nregs, starts, masks, ctx, off, addr, Between(p.body.ctx));
    EpilogueCode(ls, dirty, nregs, starts, masks, ctx, off, addr, Between(p.pre.ctx));
    CutOff(Code(p), m, Length(m));
  }

  lemma CutOff(code: seq<Instr>, m: nat, length: nat)
    requires m <= |code| <= m + 3 && length == (m + 7) / 8 * 8
    ensures m <= length < m + 8
    ensures var called := Called(code + seq(length - m, _ => Nop), length);
            && (code <= called <==> (|code| + 7) / 8 == (m + 7) / 8)
            && (length < |code| ==> called == code[..length])
            && (m % 8 == 7 ==> length == m + 1) && (m % 8 == 0 ==> length == m)
  {
    Padded(m, |code|);
    Prefix(code, seq(length - m, _ => Nop), length);
  }

  lemma Padded(m: nat, n: nat)
    requires m <= n <= m + 3
    ensures var length := (m + 7) / 8 * 8;
            && m <= length < m + 8 && (m % 8 == 7 ==> length == m + 1) && (m % 8 == 0 ==> length == m)
            && (n <= length <==> (n + 7) / 8 == (m + 7) / 8)
  {
  }

  lemma Prefix(code: seq<Instr>, more: seq<Instr>, length: nat)
    requires length <= |code| + |more|
    ensures var called := Called(code + more, length);
            (code <= called <==> |code| <= length) && (length < |code| ==> called == code[..length])
  {
    var called := Called(code + more, length);
    assert |called| == length && called == (code + more)[..length];
    if |code| <= length { assert called[..|code|] == code; }
  }

  // ----- Running it -------------------------------------------------------------------------------------

  /** Run as a whole, the code does what a function is for: `e` is the state the body ends in, and the final
      state has the registers the caller can use as they were. */
  lemma EmittedRestores(ls: nat, dirty: seq<bool>, nregs: nat, starts: seq<nat>, masks: seq<seq<bool>>, ctx: Reg,
                        off: int, addr: Reg,
                        body: Stmt, g: Ctx, fuel: nat, c: Core, e: Core, top: Reg) returns (d: Core)
    requires |starts| == |masks| && nregs <= |dirty| && Groups(dirty, nregs, starts, masks) && starts != []
    requires nregs <= addr && ctx + 1 < addr
    requires WellFormed(body, false, false) && Tidy.UsesBelow(body, top) && addr + 1 < top
    requires var kept := Address(c.regs, ctx, off);
             var dump := Lists.Word64(c.mem, kept);
             var start := Entered(ctx, off, addr, starts, masks, c);
             && dump + 4 * Rank(dirty, nregs) < W64 && Lists.Apart(kept, 8, dump, 4 * Rank(dirty, nregs))
             && Exec(body, fuel, start) == Done(e) && Behaves(dirty, nregs, ctx, kept, dump, start, e)
    ensures Ends(Code(Generated(ls, ctx, off, addr, starts, masks, body, g)), c, d)
    ensures d.mem == e.mem && d.log == e.log && forall r: nat :: r < nregs ==> Get(d.regs, r) == Get(c.regs, r)
  {
    hide Gen, Groups, Behaves, Exec, Entered, Left, Ends, Finish, Preamble, Epilogue, WellFormed, Linking.Closed,
         Linking.AllBelow, Tidy.UsesBelow;
    var p := Generated(ls, ctx, off, addr, starts, masks, body, g);
    d := Left(ctx, off, addr, starts, masks, e);
    SaveRestore(dirty, nregs, starts, masks, ctx, off, addr, body, fuel, c, e);
    PartsRun(ctx, off, addr, starts, masks, c, e);
    assert Means(body, Entered(ctx, off, addr, starts, masks, c), e);
    PartsFormed(dirty, nregs, ctx, off, addr, starts, masks, top);
    var start := Entered(ctx, off, addr, starts, masks, c);
    OnePart(ls, Preamble(ctx, off, addr, starts, masks), Between(p.body.ctx), c, start, top);
    OnePart(ls, body, g, start, e, top);
    OnePart(ls, Epilogue(ctx, off, addr, starts, masks), Between(p.pre.ctx), e, d, top);
    OneAfterTheOther(Finish(p.body.code), Finish(p.post.code), start, d);
    ClosedBoth(Finish(p.body.code), Finish(p.post.code));
    OneAfterTheOther(Finish(p.pre.code), Finish(p.body.code) + Finish(p.post.code), c, d);
  }

  lemma OnePart(ls: nat, s: Stmt, g: Ctx, c: Core, d: Core, top: Reg)
    requires WellFormed(s, false, false) && Tidy.UsesBelow(s, top) && Means(s, c, d)
    ensures Ends(Finish(Gen(ls, s, g, IDLE).code), c, d) && Linking.Closed(Finish(Gen(ls, s, g, IDLE).code))
  {
    hide Gen, Finish, Ends, Means, WellFormed, Linking.Closed, Tidy.UsesBelow;
    CompilationPreservesMeaning(ls, s, g, IDLE, c, d);
    Tidy.FinishedTidy(ls, s, g, IDLE, top);
  }

  lemma ClosedBoth(a: seq<Instr>, b: seq<Instr>)
    requires Linking.Closed(a) && Linking.Closed(b)
    ensures Linking.Closed(a + b)
  {
  }

  lemma PartsRun(ctx: Reg, off: int, addr: Reg, starts: seq<nat>, masks: seq<seq<bool>>, c: Core, e: Core)
    requires |starts| == |masks|
    ensures Means(Preamble(ctx, off, addr, starts, masks), c, Entered(ctx, off, addr, starts, masks, c))
    ensures Means(Epilogue(ctx, off, addr, starts, masks), e, Left(ctx, off, addr, starts, masks, e))
  {
    hide ExecOp;
    var load := Load(addr, ctx, Lists.TWO, off);
    RunsThree(load, Saves(starts, masks, addr, |starts|), FlushStores, c);
    RunsThree(load, Restores(starts, masks, addr, |starts|), FlushLoads, e);
    assert Exec(Preamble(ctx, off, addr, starts, masks), 0, c) == Done(Entered(ctx, off, addr, starts, masks, c));
    assert Exec(Epilogue(ctx, off, addr, starts, masks), 0, e) == Done(Left(ctx, off, addr, starts, masks, e));
  }

  lemma RunsThree(i: Instr, ops: seq<Instr>, flush: Stmt, c: Core)
    requires flush.FlushLoads? || flush.FlushStores?
    ensures Exec(Stmt.Seq(Op(i), Stmt.Seq(Arith.Ops(ops), flush)), 0, c) == Done(Arith.RunOps(ops, ExecOp(i, c)))
  {
    hide ExecOp;
    var c1 := ExecOp(i, c);
    Arith.OpsMean(ops, 0, c1);
    assert Exec(flush, 0, Arith.RunOps(ops, c1)) == Done(Arith.RunOps(ops, c1));
    assert Exec(Stmt.Seq(Arith.Ops(ops), flush), 0, c1) == Done(Arith.RunOps(ops, c1));
    assert Exec(Op(i), 0, c) == Done(c1);
  }

  /** Instructions of a client's, none of them a branch. */
  ghost predicate Harmless(ops: seq<Instr>, top: Reg) {
    forall k :: 0 <= k < |ops| ==> Plain(ops[k]) && Linking.Below(ops[k], top)
  }

  lemma {:induction false} OpsFormed(ops: seq<Instr>, top: Reg)
    requires Harmless(ops, top)
    ensures WellFormed(Arith.Ops(ops), false, false) && Tidy.UsesBelow(Arith.Ops(ops), top)
    decreases |ops|
  {
    hide Linking.Below;
    if ops != [] {
      var front := ops[..|ops| - 1];
      assert forall k :: 0 <= k < |front| ==> front[k] == ops[k];
      OpsFormed(front, top);
    }
  }

  lemma {:induction false} TransfersHarmless(starts: seq<nat>, masks: seq<seq<bool>>, addr: Reg, n: nat, top: Reg)
    requires n <= |starts| == |masks| && addr + 1 < top && forall k :: 0 <= k < n ==> starts[k] + |masks[k]| <= addr
    ensures Harmless(Saves(starts, masks, addr, n), top) && Harmless(Restores(starts, masks, addr, n), top)
    decreases n
  {
    if n > 0 {
      TransfersHarmless(starts, masks, addr, n - 1, top);
      HarmlessMore(Saves(starts, masks, addr, n - 1), Store(starts[n - 1], addr, masks[n - 1], Offset(masks, n - 1)),
                   top);
      HarmlessMore(Restores(starts, masks, addr, n - 1), Load(starts[n - 1], addr, masks[n - 1], Offset(masks, n - 1)),
                   top);
    }
  }

  lemma HarmlessMore(ops: seq<Instr>, i: Instr, top: Reg)
    requires Harmless(ops, top) && (i.Store? || i.Load?) && i.base + |i.mask| <= i.addr && i.addr + 1 < top
    ensures Harmless(ops + [i], top)
  {
    assert Linking.Below(i, top);
  }

  lemma PartsFormed(dirty: seq<bool>, nregs: nat, ctx: Reg, off: int, addr: Reg, starts: seq<nat>,
                    masks: seq<seq<bool>>, top: Reg)
    requires Groups(dirty, nregs, starts, masks) && |starts| == |masks| && nregs <= addr && ctx + 1 < addr
    requires addr + 1 < top
    ensures var s := Preamble(ctx, off, addr, starts, masks); WellFormed(s, false, false) && Tidy.UsesBelow(s, top)
    ensures var s := Epilogue(ctx, off, addr, starts, masks); WellFormed(s, false, false) && Tidy.UsesBelow(s, top)
  {
    hide Linking.Below, Groups, Harmless;
    forall k | 0 <= k < |starts| ensures starts[k] + |masks[k]| <= addr { InOrder(dirty, nregs, starts, masks, k); }
    TransfersHarmless(starts, masks, addr, |starts|, top);
    AddressBelow(ctx, off, addr, top);
    ThreeFormed(Load(addr, ctx, Lists.TWO, off), Saves(starts, masks, addr, |starts|), FlushStores, top);
    ThreeFormed(Load(addr, ctx, Lists.TWO, off), Restores(starts, masks, addr, |starts|), FlushLoads, top);
  }

  lemma ThreeFormed(i: Instr, ops: seq<Instr>, flush: Stmt, top: Reg)
    requires Plain(i) && Linking.Below(i, top) && Harmless(ops, top) && (flush.FlushLoads? || flush.FlushStores?)
    ensures var s := Stmt.Seq(Op(i), Stmt.Seq(Arith.Ops(ops), flush));
            WellFormed(s, false, false) && Tidy.UsesBelow(s, top)
  {
    hide Linking.Below, Harmless;
    OpsFormed(ops, top);
    var rest := Stmt.Seq(Arith.Ops(ops), flush);
    assert WellFormed(flush, false, false) && Tidy.UsesBelow(flush, top);
    assert WellFormed(rest, false, false) && Tidy.UsesBelow(rest, top);
  }

  lemma AddressBelow(ctx: Reg, off: int, addr: Reg, top: Reg)
    requires ctx + 1 < addr && addr + 1 < top
    ensures Linking.Below(Load(addr, ctx, Lists.TWO, off), top)
  {
    PairRow(addr);
  }
}
