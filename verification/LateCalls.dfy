/** A function on the machine with late loads. Its postamble is emitted under the tracker the preamble leaves, which
    knows nothing of loads the body has left in flight. */
module LateCalls {
  import opened Isa
  import opened Structured
  import opened Functions
  import opened Emission
  import opened A = Async
  import opened Bits
  import opened Sequences
  import Arith
  import Linking
  import Lists
  import Lost
  import Preservation
  import Tidy
  import Tracker

  // ----- Runs through two pieces of code ---------------------------------------------------------------

  /** The state, with positions counted from `n`. */
  function Moved(s: Late, n: nat): Late {
    s.(pc := s.pc - n)
  }

  function MovedAll(states: seq<Late>, n: nat): (r: seq<Late>)
    ensures |r| == |states|
  {
    seq(|states|, k requires 0 <= k < |states| => Moved(states[k], n))
  }

  lemma NextInside(ls: nat, p: seq<Instr>, q: seq<Instr>, s: Late, t: Late)
    requires 0 <= s.pc < |p| && Next(ls, p + q, s, t)
    ensures Next(ls, p, s, t)
  {
    assert (p + q)[s.pc] == p[s.pc];
  }

  lemma NextMoved(ls: nat, p: seq<Instr>, q: seq<Instr>, s: Late, t: Late)
    requires |p| <= s.pc < |p| + |q| && Next(ls, p + q, s, t)
    ensures Next(ls, q, Moved(s, |p|), Moved(t, |p|))
  {
    hide A.Outside;
    assert (p + q)[s.pc] == q[s.pc - |p|];
  }

  lemma NextStays(ls: nat, p: seq<Instr>, s: Late, t: Late)
    requires Linking.Closed(p) && 0 <= s.pc < |p| && Next(ls, p, s, t)
    ensures 0 <= t.pc <= |p|
  {
  }

  /** A run that gets to the end of two pieces of code first runs the one, then the other. */
  lemma RunSplits(ls: nat, p: seq<Instr>, q: seq<Instr>, states: seq<Late>) returns (k: nat)
    requires Linking.Closed(p) && Linking.Closed(q) && A.Run(ls, p + q, states)
    requires states[0].pc == 0 && states[|states| - 1].pc == |p + q|
    ensures k < |states| && A.Run(ls, p, states[..k + 1]) && states[k].pc == |p|
    ensures A.Run(ls, q, MovedAll(states[k..], |p|))
  {
    hide Next, Linking.Closed;
    k := 0;
    while states[k].pc != |p|
      invariant k < |states| && 0 <= states[k].pc <= |p|
      invariant forall j :: 0 <= j < k ==> 0 <= states[j].pc < |p|
      decreases |states| - k
    {
      assert k < |states| - 1;
      NextInside(ls, p, q, states[k], states[k + 1]);
      NextStays(ls, p, states[k], states[k + 1]);
      k := k + 1;
    }
    forall j | 0 <= j < k ensures Next(ls, p, states[j], states[j + 1]) {
      NextInside(ls, p, q, states[j], states[j + 1]);
    }
    Behind(ls, p, q, states, k);
  }

  lemma Behind(ls: nat, p: seq<Instr>, q: seq<Instr>, states: seq<Late>, k: nat)
    requires Linking.Closed(q) && A.Run(ls, p + q, states) && k < |states| && states[k].pc == |p|
    ensures A.Run(ls, q, MovedAll(states[k..], |p|))
  {
    hide Next, Linking.Closed;
    var n := k;
    while n < |states| - 1
      invariant k <= n < |states| && |p| <= states[n].pc <= |p| + |q|
      invariant forall j :: k <= j < n ==>
                  |p| <= states[j].pc < |p| + |q| && Next(ls, q, Moved(states[j], |p|), Moved(states[j + 1], |p|))
    {
      NextMoved(ls, p, q, states[n], states[n + 1]);
      NextStays(ls, q, Moved(states[n], |p|), Moved(states[n + 1], |p|));
      n := n + 1;
    }
    var r := MovedAll(states[k..], |p|);
    forall j | 0 <= j < |r| - 1 ensures 0 <= r[j].pc < |q| && Next(ls, q, r[j], r[j + 1]) {
      assert r[j] == Moved(states[k + j], |p|) && r[j + 1] == Moved(states[k + j + 1], |p|);
    }
  }

  // ----- The parts ---------------------------------------------------------------------------------------

  lemma {:induction false} OpsCovered(ls: nat, ops: seq<Instr>, g: Ctx, head: Ls)
    ensures Tracker.Covered(ls, Arith.Ops(ops), g, head)
    decreases |ops|
  {
    hide Gen;
    if ops != [] { OpsCovered(ls, ops[..|ops| - 1], g, head); }
  }

  lemma ThreeCovered(ls: nat, i: Instr, ops: seq<Instr>, flush: Stmt, g: Ctx)
    requires flush.FlushLoads? || flush.FlushStores?
    ensures Tracker.Covered(ls, Stmt.Seq(Op(i), Stmt.Seq(Arith.Ops(ops), flush)), g, IDLE)
  {
    hide Gen, Arith.Ops;
    var g1 := Gen(ls, Op(i), g, IDLE).ctx;
    OpsCovered(ls, ops, g1, IDLE);
    assert Tracker.Covered(ls, flush, Gen(ls, Arith.Ops(ops), g1, IDLE).ctx, IDLE);
    assert Tracker.Covered(ls, Stmt.Seq(Arith.Ops(ops), flush), g1, IDLE);
  }

  /** The first restoring load waits for its address, whatever else is in flight. */
  lemma {:induction false} RestoresSame(ls: nat, dirty: seq<bool>, nregs: nat, starts: seq<nat>, masks: seq<seq<bool>>,
                                        addr: Reg, n: nat, g: Ctx, h: Ctx)
    requires Groups(dirty, nregs, starts, masks) && 0 < n <= |starts| == |masks|
    requires addr in g.tr.loads && addr in h.tr.loads
    ensures var x, y := Gen(ls, Arith.Ops(Restores(starts, masks, addr, n)), g, IDLE),
                        Gen(ls, Arith.Ops(Restores(starts, masks, addr, n)), h, IDLE);
            && Preservation.Finish(x.code) == Preservation.Finish(y.code) && x.ctx.tr == y.ctx.tr
            && Resolved(x.code) && Resolved(y.code)
    decreases n
  {
    hide Clash, GenOp, Groups, Gen, Preservation.Finish;
    var i := Load(starts[n - 1], addr, masks[n - 1], Offset(masks, n - 1));
    var front := Restores(starts, masks, addr, n - 1);
    OpsMore(ls, front, i, g, IDLE);
    OpsMore(ls, front, i, h, IDLE);
    var x, y := Gen(ls, Arith.Ops(front), g, IDLE), Gen(ls, Arith.Ops(front), h, IDLE);
    if n == 1 {
      NoOps(ls, g);
      NoOps(ls, h);
      WaitsFirst(ls, i, g.tr, h.tr);
    } else {
      RestoresSame(ls, dirty, nregs, starts, masks, addr, n - 1, g, h);
    }
    OpResolved(ls, i, x.ctx.tr);
    OpResolved(ls, i, y.ctx.tr);
    FinishBoth(x.code, GenOp(ls, i, x.ctx.tr).code);
    FinishBoth(y.code, GenOp(ls, i, y.ctx.tr).code);
  }

  lemma NoOps(ls: nat, g: Ctx)
    ensures Gen(ls, Arith.Ops([]), g, IDLE).code == [] && Gen(ls, Arith.Ops([]), g, IDLE).ctx == g
  {
  }

  /** No branch is left open. */
  ghost predicate Resolved(code: seq<Item>) {
    forall k :: 0 <= k < |code| ==> code[k].Emit?
  }

  lemma OpResolved(ls: nat, i: Instr, tr: Ls)
    ensures Resolved(GenOp(ls, i, tr).code)
  {
  }

  lemma FinishBoth(a: seq<Item>, b: seq<Item>)
    requires Resolved(b)
    ensures Preservation.Finish(a + b) == Preservation.Finish(a) + Preservation.Finish(b)
    ensures Resolved(a) ==> Resolved(a + b)
  {
  }

  lemma WaitsFirst(ls: nat, i: Instr, a: Ls, b: Ls)
    requires i.Load? && i.addr in a.loads && i.addr in b.loads
    ensures Preservation.Finish(GenOp(ls, i, a).code) == Preservation.Finish(GenOp(ls, i, b).code)
    ensures GenOp(ls, i, a).tr == GenOp(ls, i, b).tr
  {
    assert i.addr in Operands(i)[1] * a.loads && i.addr in Operands(i)[1] * b.loads;
  }

  /** The postamble is the same code as if the builder knew what the body leaves in flight, unless the context
      register or the builder's own pair is. */
  lemma PostambleSame(ls: nat, dirty: seq<bool>, nregs: nat, starts: seq<nat>, masks: seq<seq<bool>>, ctx: Reg,
                      off: int, addr: Reg, g: Ctx, h: Ctx)
    requires Groups(dirty, nregs, starts, masks) && |starts| == |masks| && starts != [] && nregs <= addr
    requires g.tr == IDLE && !Clash(Load(addr, ctx, Lists.TWO, off), h.tr.loads)
    ensures var x, y := Gen(ls, Epilogue(ctx, off, addr, starts, masks), g, IDLE),
                        Gen(ls, Epilogue(ctx, off, addr, starts, masks), h, IDLE);
            Preservation.Finish(x.code) == Preservation.Finish(y.code) && y.ctx.tr == IDLE
  {
    hide Clash, GenOp, Groups, Gen, Preservation.Finish;
    var n, i, ops := |starts|, Load(addr, ctx, Lists.TWO, off), Restores(starts, masks, addr, |starts|);
    NotWaiting(ls, ctx, off, addr, g.tr);
    NotWaiting(ls, ctx, off, addr, h.tr);
    var g1, h1 := g.(tr := GenOp(ls, i, g.tr).tr, pend := false), h.(tr := GenOp(ls, i, h.tr).tr, pend := false);
    ThreeCode(ls, i, ops, FlushLoads, g);
    ThreeCode(ls, i, ops, FlushLoads, h);
    AddressCode(ls, ctx, off, addr, g.tr);
    RestoresCode(ls, dirty, nregs, starts, masks, addr, n, g1, IDLE);
    RestoresSame(ls, dirty, nregs, starts, masks, addr, n, g1, h1);
    var x, y := Gen(ls, Arith.Ops(ops), g1, IDLE), Gen(ls, Arith.Ops(ops), h1, IDLE);
    FlushSame(ls, x.ctx, y.ctx);
    FlushCode(ls, FlushLoads, y.ctx);
    JoinThree(GenOp(ls, i, g.tr).code, x.code, Gen(ls, FlushLoads, x.ctx, IDLE).code);
    JoinThree(GenOp(ls, i, h.tr).code, y.code, Gen(ls, FlushLoads, y.ctx, IDLE).code);
  }

  lemma NotWaiting(ls: nat, ctx: Reg, off: int, addr: Reg, tr: Ls)
    requires tr == IDLE || !Clash(Load(addr, ctx, Lists.TWO, off), tr.loads)
    ensures var i := Load(addr, ctx, Lists.TWO, off);
            var p := GenOp(ls, i, tr);
            && p.code == [Emit(i, tr.loads)] && addr in p.tr.loads && Preservation.Finish(p.code) == [i]
  {
    PairRow(addr);
    Lost.NothingClashes(Load(addr, ctx, Lists.TWO, off));
  }

  lemma FlushSame(ls: nat, g: Ctx, h: Ctx)
    requires g.tr == h.tr
    ensures Gen(ls, FlushLoads, g, IDLE).code == Gen(ls, FlushLoads, h, IDLE).code
    ensures Resolved(Gen(ls, FlushLoads, g, IDLE).code)
  {
  }

  lemma JoinThree(a: seq<Item>, b: seq<Item>, c: seq<Item>)
    requires Resolved(b) && Resolved(c)
    ensures Preservation.Finish(a + (b + c))
         == Preservation.Finish(a) + (Preservation.Finish(b) + Preservation.Finish(c))
  {
    FinishBoth(b, c);
    FinishBoth(a, b + c);
  }

  // ----- The function as a whole --------------------------------------------------------------------------

  lemma MeansOne(s: Stmt, c: Core, d: Core, e: Core)
    requires Preservation.Means(s, c, d) && Preservation.Means(s, c, e)
    ensures d == e
  {
    hide Exec;
    var n: nat :| Exec(s, n, c) == Done(d);
    var m: nat :| Exec(s, m, c) == Done(e);
    if n <= m { MoreFuel(s, n, m, c); } else { MoreFuel(s, m, n, c); }
  }

  /** One part, run to its end, does what it means. */
  lemma PartMeans(ls: nat, s: Stmt, g: Ctx, states: seq<Late>, d: Core)
    requires WellFormed(s, false, false) && Tracker.Covered(ls, s, g, IDLE)
    requires var p := Preservation.Finish(Gen(ls, s, g, IDLE).code);
             && A.Run(ls, p, states) && states[0].pc == 0 && states[0].due.Keys <= g.tr.loads
             && states[|states| - 1].pc == |p|
    requires Preservation.Means(s, Settled(states[0]).core, d)
    ensures var last := states[|states| - 1];
            Settled(last).core == d && last.due.Keys <= Gen(ls, s, g, IDLE).ctx.tr.loads
  {
    hide Gen, WellFormed, Tracker.Covered, Preservation.Means, Next;
    AsyncMeaning(ls, s, g, IDLE, states);
    MeansOne(s, Settled(states[0]).core, d, Settled(states[|states| - 1]).core);
  }

  lemma PartClosed(ls: nat, s: Stmt, g: Ctx, top: Reg)
    requires WellFormed(s, false, false) && Tidy.UsesBelow(s, top)
    ensures Linking.Closed(Preservation.Finish(Gen(ls, s, g, IDLE).code))
  {
    hide Gen, Preservation.Finish, WellFormed, Linking.Closed, Tidy.UsesBelow;
    Tidy.FinishedTidy(ls, s, g, IDLE, top);
  }

  lemma AllSettled(s: Late)
    ensures s.due == map[] ==> Settled(s).core == s.core
    ensures s.due.Keys <= {} ==> s.due == map[]
  {
  }

  /** Through the first of two parts. */
  lemma PartDone(ls: nat, s: Stmt, g: Ctx, q: seq<Instr>, states: seq<Late>, d: Core, top: Reg)
    returns (rest: seq<Late>)
    requires WellFormed(s, false, false) && Tidy.UsesBelow(s, top) && Tracker.Covered(ls, s, g, IDLE)
    requires var p := Preservation.Finish(Gen(ls, s, g, IDLE).code);
             && A.Run(ls, p + q, states) && Linking.Closed(q) && states[0].pc == 0
             && states[0].due.Keys <= g.tr.loads && states[|states| - 1].pc == |p + q|
    requires Preservation.Means(s, Settled(states[0]).core, d)
    ensures A.Run(ls, q, rest) && rest[0].pc == 0 && Settled(rest[0]).core == d
    ensures rest[0].due.Keys <= Gen(ls, s, g, IDLE).ctx.tr.loads
    ensures var p := Preservation.Finish(Gen(ls, s, g, IDLE).code);
            rest[|rest| - 1] == Moved(states[|states| - 1], |p|)
  {
    hide Gen, Preservation.Finish, WellFormed, Linking.Closed, Tidy.UsesBelow, Tracker.Covered, Preservation.Means,
         Next;
    var p := Preservation.Finish(Gen(ls, s, g, IDLE).code);
    PartClosed(ls, s, g, top);
    var k := RunSplits(ls, p, q, states);
    PartMeans(ls, s, g, states[..k + 1], d);
    rest := MovedAll(states[k..], |p|);
  }

  /** The body and the postamble. */
  lemma BodyDone(ls: nat, dirty: seq<bool>, nregs: nat, starts: seq<nat>, masks: seq<seq<bool>>, ctx: Reg, off: int,
                 addr: Reg, body: Stmt, g: Ctx, h: Ctx, states: seq<Late>, e: Core, top: Reg)
    requires |starts| == |masks| && Groups(dirty, nregs, starts, masks) && starts != []
    requires nregs <= addr && ctx + 1 < addr
    requires WellFormed(body, false, false) && Tidy.UsesBelow(body, top) && addr + 1 < top
    requires Tracker.Covered(ls, body, g, IDLE) && h.tr == IDLE
    requires !Clash(Load(addr, ctx, Lists.TWO, off), Gen(ls, body, g, IDLE).ctx.tr.loads)
    requires var code := Preservation.Finish(Gen(ls, body, g, IDLE).code)
                         + Preservation.Finish(Gen(ls, Epilogue(ctx, off, addr, starts, masks), h, IDLE).code);
             && A.Run(ls, code, states) && states[0].pc == 0 && states[0].due == map[]
             && states[|states| - 1].pc == |code|
    requires Preservation.Means(body, states[0].core, e)
    ensures var last := states[|states| - 1];
            last.due == map[] && last.core == Left(ctx, off, addr, starts, masks, e)
  {
    hide Gen, Groups, Left, Preservation.Finish, Epilogue, WellFormed, Linking.Closed, Tidy.UsesBelow, Tracker.Covered,
         Next, Clash, Preservation.Means, Preamble, Entered;
    var post := Epilogue(ctx, off, addr, starts, masks);
    var known := Gen(ls, body, g, IDLE).ctx;
    PartsFormed(dirty, nregs, ctx, off, addr, starts, masks, top);
    PartsRun(ctx, off, addr, starts, masks, e, e);
    PartClosed(ls, post, h, top);
    AllSettled(states[0]);
    var rest := PartDone(ls, body, g, Preservation.Finish(Gen(ls, post, h, IDLE).code), states, e, top);
    PostambleSame(ls, dirty, nregs, starts, masks, ctx, off, addr, h, known);
    PostambleCovered(ls, ctx, off, addr, starts, masks, known);
    PartMeans(ls, post, known, rest, Left(ctx, off, addr, starts, masks, e));
    AllSettled(rest[|rest| - 1]);
  }

  lemma PostambleCovered(ls: nat, ctx: Reg, off: int, addr: Reg, starts: seq<nat>, masks: seq<seq<bool>>, g: Ctx)
    requires |starts| == |masks|
    ensures Tracker.Covered(ls, Epilogue(ctx, off, addr, starts, masks), g, IDLE)
    ensures Tracker.Covered(ls, Preamble(ctx, off, addr, starts, masks), g, IDLE)
  {
    hide Tracker.Covered;
    ThreeCovered(ls, Load(addr, ctx, Lists.TWO, off), Saves(starts, masks, addr, |starts|), FlushStores, g);
    ThreeCovered(ls, Load(addr, ctx, Lists.TWO, off), Restores(starts, masks, addr, |starts|), FlushLoads, g);
  }

  /** Called with no load in flight, the function restores what the caller can use, and has no load in flight at its
      end, whenever its loads complete: if its body keeps to what the tracker needs, and leaves no load of the context
      register or the builder's own pair in flight. */
  lemma LateRestores(ls: nat, dirty: seq<bool>, nregs: nat, starts: seq<nat>, masks: seq<seq<bool>>, ctx: Reg, off: int,
                     addr: Reg, body: Stmt, g: Ctx, fuel: nat, states: seq<Late>, e: Core, top: Reg)
    requires |starts| == |masks| && nregs <= |dirty| && Groups(dirty, nregs, starts, masks) && starts != []
    requires nregs <= addr && ctx + 1 < addr
    requires WellFormed(body, false, false) && Tidy.UsesBelow(body, top) && addr + 1 < top
    requires Tracker.Covered(ls, body, g, IDLE)
    requires !Clash(Load(addr, ctx, Lists.TWO, off), Gen(ls, body, g, IDLE).ctx.tr.loads)
    requires var code := Code(Generated(ls, ctx, off, addr, starts, masks, body, g));
             && A.Run(ls, code, states) && states[0].pc == 0 && states[0].due == map[]
             && states[|states| - 1].pc == |code|
    requires var c := states[0].core;
             var kept := Address(c.regs, ctx, off);
             var dump := Lists.Word64(c.mem, kept);
             var start := Entered(ctx, off, addr, starts, masks, c);
             && dump + 4 * Rank(dirty, nregs) < W64 && Lists.Apart(kept, 8, dump, 4 * Rank(dirty, nregs))
             && Exec(body, fuel, start) == Done(e) && Behaves(dirty, nregs, ctx, kept, dump, start, e)
    ensures var c, last := states[0].core, states[|states| - 1];
            && last.due == map[] && last.core.mem == e.mem && last.core.log == e.log
            && forall r: nat :: r < nregs ==> Get(last.core.regs, r) == Get(c.regs, r)
  {
    hide Gen, Groups, Behaves, Exec, Entered, Left, Preservation.Finish, Preamble, Epilogue, WellFormed, Linking.Closed,
         Linking.AllBelow, Tidy.UsesBelow, Tracker.Covered, Next, Clash, Preservation.Means;
    var c, p := states[0].core, Generated(ls, ctx, off, addr, starts, masks, body, g);
    var start, d := Entered(ctx, off, addr, starts, masks, c), Left(ctx, off, addr, starts, masks, e);
    AllSettled(states[0]);
    SaveRestore(dirty, nregs, starts, masks, ctx, off, addr, body, fuel, c, e);
    PartsRun(ctx, off, addr, starts, masks, c, e);
    MeansBy(body, fuel, start, e);
    PartsFormed(dirty, nregs, ctx, off, addr, starts, masks, top);
    PostambleCovered(ls, ctx, off, addr, starts, masks, Between(p.body.ctx));
    PreambleCode(ls, dirty, nregs, starts, masks, ctx, off, addr, Between(p.body.ctx));
    PartClosed(ls, body, g, top);
    PartClosed(ls, Epilogue(ctx, off, addr, starts, masks), Between(p.pre.ctx), top);
    var behind := Preservation.Finish(p.body.code) + Preservation.Finish(p.post.code);
    ClosedBoth(Preservation.Finish(p.body.code), Preservation.Finish(p.post.code));
    var rest := PartDone(ls, Preamble(ctx, off, addr, starts, masks), Between(p.body.ctx), behind, states, start, top);
    AllSettled(rest[0]);
    BodyDone(ls, dirty, nregs, starts, masks, ctx, off, addr, body, g, Between(p.pre.ctx), rest, e, top);
  }

  lemma MeansBy(s: Stmt, fuel: nat, c: Core, d: Core)
    requires Exec(s, fuel, c) == Done(d)
    ensures Preservation.Means(s, c, d)
  {
  }

  // ----- What the postamble does not know ---------------------------------------------------------------------

  lemma {:induction false} StraightPlain(ls: nat, s: Stmt, g: Ctx, head: Ls)
    requires Lost.Straight(s)
    ensures AllPlain(Gen(ls, s, g, head).code)
    decreases s
  {
    hide Clash;
    match s
    case Seq(a, b) =>
      var x := Gen(ls, a, g, head);
      StraightPlain(ls, a, g, head);
      StraightPlain(ls, b, x.ctx, head);
      assert Gen(ls, s, g, head).code == x.code + Gen(ls, b, x.ctx, head).code;
    case _ =>
  }

  ghost predicate AllPlain(code: seq<Item>) {
    forall k :: 0 <= k < |code| ==> code[k].Emit? && Plain(code[k].i)
  }

  lemma {:induction false} OpsStraight(ops: seq<Instr>)
    requires forall k :: 0 <= k < |ops| ==> Plain(ops[k])
    ensures Lost.Straight(Arith.Ops(ops))
    decreases |ops|
  {
    if ops != [] { OpsStraight(ops[..|ops| - 1]); }
  }

  lemma {:induction false} SavesPlain(starts: seq<nat>, masks: seq<seq<bool>>, addr: Reg, n: nat)
    requires n <= |starts| == |masks|
    ensures forall k :: 0 <= k < |Saves(starts, masks, addr, n)| ==> Plain(Saves(starts, masks, addr, n)[k])
    decreases n
  {
    if n > 0 { SavesPlain(starts, masks, addr, n - 1); }
  }

  lemma PreambleStraight(ctx: Reg, off: int, addr: Reg, starts: seq<nat>, masks: seq<seq<bool>>)
    requires |starts| == |masks|
    ensures Lost.Straight(Preamble(ctx, off, addr, starts, masks))
  {
    var ops := Saves(starts, masks, addr, |starts|);
    SavesPlain(starts, masks, addr, |starts|);
    OpsStraight(ops);
    assert Lost.Straight(FlushStores);
    assert Lost.Straight(Stmt.Seq(Arith.Ops(ops), FlushStores));
  }

  /** Through instructions that are no branches. */
  lemma {:induction false} LeadPlain(ls: nat, p: seq<Instr>, pcs: seq<nat>, entry: set<Reg>, at: nat, flight: set<Reg>,
                                     n: nat) returns (q: seq<nat>, f: set<Reg>)
    requires Lost.Leads(ls, p, pcs, entry, at, flight) && at + n <= |p|
    requires forall k :: at <= k < at + n ==> Plain(p[k])
    ensures Lost.Leads(ls, p, q, entry, at + n, f)
    ensures n > 0 && p[at + n - 1] == Wait({ls}) ==> f == {}
    decreases n
  {
    hide Lost.Leads;
    if n == 0 {
      q, f := pcs, flight;
    } else {
      q, f := LeadPlain(ls, p, pcs, entry, at, flight, n - 1);
      Lost.StepOp(ls, p, q, entry, at + n - 1, f);
      q, f := q + [at + n], Flight(ls, p[at + n - 1], f);
    }
  }

  lemma PreambleWaits(ls: nat, dirty: seq<bool>, nregs: nat, starts: seq<nat>, masks: seq<seq<bool>>, ctx: Reg,
                      off: int, addr: Reg, g: Ctx)
    requires Groups(dirty, nregs, starts, masks) && |starts| == |masks| && starts != []
    ensures var code := Preservation.Finish(Gen(ls, Preamble(ctx, off, addr, starts, masks), g, IDLE).code);
            |code| > 0 && code[|code| - 1] == Wait({ls}) && forall k :: 0 <= k < |code| ==> Plain(code[k])
  {
    hide Clash, GenOp, Groups, Gen, Preservation.Finish;
    var n, i, ops := |starts|, Load(addr, ctx, Lists.TWO, off), Saves(starts, masks, addr, |starts|);
    AddressCode(ls, ctx, off, addr, g.tr);
    forall k | 0 <= k < n ensures true in masks[k] { InOrder(dirty, nregs, starts, masks, k); }
    var g1 := g.(tr := GenOp(ls, i, g.tr).tr, pend := false);
    SavesCode(ls, starts, masks, addr, n, g1, IDLE);
    var x := Gen(ls, Arith.Ops(ops), g1, IDLE);
    FlushCode(ls, FlushStores, x.ctx);
    ThreeCode(ls, i, ops, FlushStores, g);
    PreambleStraight(ctx, off, addr, starts, masks);
    StraightPlain(ls, Preamble(ctx, off, addr, starts, masks), g, IDLE);
    LastIs(Gen(ls, Preamble(ctx, off, addr, starts, masks), g, IDLE).code, GenOp(ls, i, g.tr).code + x.code,
           Gen(ls, FlushStores, x.ctx, IDLE).code);
  }

  lemma LastIs(all: seq<Item>, a: seq<Item>, b: seq<Item>)
    requires all == a + b && |b| == 1 && b[0].Emit? && AllPlain(all)
    ensures var code := Preservation.Finish(all);
            |code| > 0 && code[|code| - 1] == b[0].i && forall k :: 0 <= k < |code| ==> Plain(code[k])
  {
  }

  /** On the way through a straight body, the first load of the postamble meets a load in flight exactly when the
      body leaves one of the context register or of the builder's own pair. */
  lemma PostambleExact(ls: nat, dirty: seq<bool>, nregs: nat, starts: seq<nat>, masks: seq<seq<bool>>, ctx: Reg,
                       off: int, addr: Reg, body: Stmt, g: Ctx) returns (q: seq<nat>)
    requires Groups(dirty, nregs, starts, masks) && |starts| == |masks| && starts != [] && nregs <= addr
    requires Lost.Straight(body) && g.tr.loads == {}
    ensures var p := Generated(ls, ctx, off, addr, starts, masks, body, g);
            var code, i := Code(p), Load(addr, ctx, Lists.TWO, off);
            && Tracker.Path(code, q) && q[|q| - 1] == |p.pre.code| + |p.body.code| < |code| && code[q[|q| - 1]] == i
            && (Clash(i, Tracker.InFlight(ls, code, q, {})) <==> Clash(i, p.body.ctx.tr.loads))
  {
    hide Gen, Groups, Preservation.Finish, Preamble, Epilogue, Clash, Lost.Straight, Lost.Leads,
         Preservation.Holding;
    var p := Generated(ls, ctx, off, addr, starts, masks, body, g);
    var code, mid := Code(p), |p.pre.code|;
    PreambleWaits(ls, dirty, nregs, starts, masks, ctx, off, addr, Between(p.body.ctx));
    PreambleCode(ls, dirty, nregs, starts, masks, ctx, off, addr, Between(p.body.ctx));
    PostambleOpens(ls, dirty, nregs, starts, masks, ctx, off, addr, Between(p.pre.ctx));
    Lost.Outset(ls, code, {});
    var r, f := LeadPlain(ls, code, [0], {}, 0, {}, mid);
    StraightPlain(ls, body, g, IDLE);
    HoldsInside(Preservation.Finish(p.pre.code), p.body.code, Preservation.Finish(p.post.code));
    q := Lost.LeadStraight(ls, code, r, {}, mid, body, g, IDLE, 0, 0);
    Lost.LeadsTo(ls, code, q, {}, mid + |p.body.code|, p.body.ctx.tr.loads);
  }

  lemma HoldsInside(a: seq<Instr>, code: seq<Item>, b: seq<Instr>)
    requires AllPlain(code)
    ensures Preservation.Holding(a + (Preservation.Finish(code) + b), |a|, code, 0, 0)
  {
  }

  lemma PostambleOpens(ls: nat, dirty: seq<bool>, nregs: nat, starts: seq<nat>, masks: seq<seq<bool>>, ctx: Reg,
                       off: int, addr: Reg, g: Ctx)
    requires Groups(dirty, nregs, starts, masks) && |starts| == |masks| && starts != [] && nregs <= addr && g.tr == IDLE
    ensures var code := Preservation.Finish(Gen(ls, Epilogue(ctx, off, addr, starts, masks), g, IDLE).code);
            |code| > 0 && code[0] == Load(addr, ctx, Lists.TWO, off)
  {
    hide Clash, GenOp, Groups, Gen;
    var i := Load(addr, ctx, Lists.TWO, off);
    NotWaiting(ls, ctx, off, addr, g.tr);
    ThreeCode(ls, i, Restores(starts, masks, addr, |starts|), FlushLoads, g);
    assert Gen(ls, Epilogue(ctx, off, addr, starts, masks), g, IDLE).code[0] == GenOp(ls, i, g.tr).code[0];
  }
}
