/** Running the code of a structured program does what the program means. */
module Preservation {
  import opened Isa
  import opened Structured

  /** `p` holds `code` at position `at`, with branches to its end and start going to `end` and `start`. */
  ghost predicate Holding(p: seq<Instr>, at: nat, code: seq<Item>, end: int, start: int) {
    && at + |code| <= |p|
    && forall i :: 0 <= i < |code| ==> p[at + i] == Place(code[i], at + i, end, start)
  }

  lemma HoldingConcat(p: seq<Instr>, at: nat, a: seq<Item>, b: seq<Item>, end: int, start: int)
    ensures Holding(p, at, a + b, end, start)
       <==> Holding(p, at, a, end, start) && Holding(p, at + |a|, b, end, start)
  {
    var c := a + b;
    if Holding(p, at, c, end, start) {
      forall i | 0 <= i < |a| ensures p[at + i] == Place(a[i], at + i, end, start) { assert c[i] == a[i]; }
      forall i | 0 <= i < |b| ensures p[at + |a| + i] == Place(b[i], at + |a| + i, end, start) {
        assert c[|a| + i] == b[i];
        assert p[at + (|a| + i)] == Place(c[|a| + i], at + (|a| + i), end, start);
      }
    }
    if Holding(p, at, a, end, start) && Holding(p, at + |a|, b, end, start) {
      forall i | 0 <= i < |c| ensures p[at + i] == Place(c[i], at + i, end, start) {
        if i < |a| {
        } else {
          assert p[at + |a| + (i - |a|)] == Place(b[i - |a|], at + |a| + (i - |a|), end, start);
        }
      }
    }
  }

  /** Resolving inside a segment is resolving against absolute positions. */
  lemma HoldingResolved(p: seq<Instr>, at: nat, code: seq<Item>, e: int, s: int, end: int, start: int)
    requires Holding(p, at, Resolve(code, e, s), end, start)
    ensures Holding(p, at, code, at + e, at + s)
  {
    forall i | 0 <= i < |code| ensures p[at + i] == Place(code[i], at + i, at + e, at + s) {
      assert p[at + i] == Place(Resolve(code, e, s)[i], at + i, end, start);
    }
  }

  lemma HoldingOne(p: seq<Instr>, at: nat, x: Item, end: int, start: int)
    requires Holding(p, at, [x], end, start)
    ensures at < |p| && p[at] == Place(x, at, end, start)
  {
    assert [x][0] == x;
  }

  /** One step of an instruction that is not a branch. */
  lemma OneOp(p: seq<Instr>, at: nat, c: Core)
    requires at < |p| && Plain(p[at])
    ensures Steps(p, Config(at, c), 1) == Config(at + 1, ExecOp(p[at], c))
  {
    assert Steps(p, Config(at, c), 1) == Steps(p, Step(p, Config(at, c)), 0);
  }

  /** An inserted WAIT changes nothing but the position. */
  lemma RunWait(p: seq<Instr>, at: nat, ls: nat, need: bool, tr: Ls, c: Core, end: int, start: int) returns (n: nat)
    requires Holding(p, at, WaitIf(ls, need, tr).code, end, start)
    ensures Steps(p, Config(at, c), n) == Config(at + |WaitIf(ls, need, tr).code|, c)
  {
    if need {
      HoldingOne(p, at, Emit(Wait({ls}), tr.loads), end, start);
      OneOp(p, at, c);
      n := 1;
    } else {
      n := 0;
    }
  }

  lemma RunOp(p: seq<Instr>, at: nat, ls: nat, i: Instr, tr: Ls, c: Core, end: int, start: int) returns (n: nat)
    requires Plain(i)
    requires Holding(p, at, GenOp(ls, i, tr).code, end, start)
    ensures Steps(p, Config(at, c), n) == Config(at + |GenOp(ls, i, tr).code|, ExecOp(i, c))
  {
    var w := WaitIf(ls, Clash(i, tr.loads), tr);
    HoldingConcat(p, at, w.code, [Emit(i, w.tr.loads)], end, start);
    var m := RunWait(p, at, ls, Clash(i, tr.loads), tr, c, end, start);
    HoldingOne(p, at + |w.code|, Emit(i, w.tr.loads), end, start);
    OneOp(p, at + |w.code|, c);
    StepsAdd(p, Config(at, c), m, 1);
    n := m + 1;
  }

  /** Where a branch in front of position `after` leads. */
  function Landing(t: Target, after: int, end: int, start: int, taken: bool): int {
    if !taken then after
    else
      match t
      case End => end
      case Start => start
      case Ahead(n) => after + n
  }

  lemma RunItem(p: seq<Instr>, here: nat, t: Target, cond: Cond, v: Reg, loads: set<Reg>, c: Core, end: int, start: int)
    requires Holding(p, here, [BranchItem(t, cond, if cond == Always then 0 else v, loads)], end, start)
    ensures Steps(p, Config(here, c), 1)
         == Config(Landing(t, here + 1, end, start, Holds(cond, Signed32(Get(c.regs, v)))), c)
  {
    HoldingOne(p, here, BranchItem(t, cond, if cond == Always then 0 else v, loads), end, start);
    assert Steps(p, Config(here, c), 1) == Steps(p, Step(p, Config(here, c)), 0);
  }

  lemma RunBranch32(p: seq<Instr>, at: nat, ls: nat, t: Target, cond: Cond, v: Reg, tr: Ls, c: Core, end: int,
                    start: int)
    returns (n: nat)
    requires Holding(p, at, Branch32(ls, t, cond, v, tr).code, end, start)
    ensures n > 0
    ensures Steps(p, Config(at, c), n)
         == Config(Landing(t, at + |Branch32(ls, t, cond, v, tr).code|, end, start,
                           Holds(cond, Signed32(Get(c.regs, v)))), c)
  {
    hide Holding, Steps, Landing, WaitIf, BranchItem, Holds;
    var need := cond != Always && v in tr.loads;
    var w := WaitIf(ls, need, tr);
    var item := BranchItem(t, cond, if cond == Always then 0 else v, w.tr.loads);
    HoldingConcat(p, at, w.code, [item], end, start);
    var m := RunWait(p, at, ls, need, tr, c, end, start);
    RunItem(p, at + |w.code|, t, cond, v, w.tr.loads, c, end, start);
    StepsAdd(p, Config(at, c), m, 1);
    n := m + 1;
  }

  lemma SignOfPair(regs: map<Reg, Word>, r: Reg)
    ensures Signed64(Get64(regs, r)) < 0 <==> Signed32(Get(regs, r + 1)) < 0
    ensures Signed64(Get64(regs, r)) == 0 <==> Signed32(Get(regs, r)) == 0 && Signed32(Get(regs, r + 1)) == 0
  {
  }

  /** A branch to `t` followed by a piece that may go there as well. */
  lemma RunEither(p: seq<Instr>, at: nat, ls: nat, t: Target, cond: Cond, v: Reg, tr: Ls, rest: Piece, c: Core,
                  end: int, start: int, taken: bool, m: nat)
    returns (n: nat)
    requires !t.Ahead?
    requires Holding(p, at, Branch32(ls, t, cond, v, tr).code, end, start)
    requires Steps(p, Config(at + |Branch32(ls, t, cond, v, tr).code|, c), m)
          == Config(Landing(t, at + |Branch32(ls, t, cond, v, tr).code| + |rest.code|, end, start, taken), c)
    ensures n > 0
    ensures Steps(p, Config(at, c), n)
         == Config(Landing(t, at + |Branch32(ls, t, cond, v, tr).code| + |rest.code|, end, start,
                           Holds(cond, Signed32(Get(c.regs, v))) || taken), c)
  {
    n := RunBranch32(p, at, ls, t, cond, v, tr, c, end, start);
    if !Holds(cond, Signed32(Get(c.regs, v))) {
      StepsAdd(p, Config(at, c), n, m);
      n := n + m;
    }
  }

  /** A branch over a piece that may go to `t`. */
  lemma RunUnless(p: seq<Instr>, at: nat, ls: nat, t: Target, cond: Cond, v: Reg, tr: Ls, over: Piece, c: Core,
                  end: int, start: int, taken: bool, m: nat)
    returns (n: nat)
    requires !t.Ahead?
    requires Holding(p, at, Branch32(ls, Ahead(|over.code|), cond, v, tr).code, end, start)
    requires Steps(p, Config(at + |Branch32(ls, Ahead(|over.code|), cond, v, tr).code|, c), m)
          == Config(Landing(t, at + |Over(ls, cond, v, tr, over).code|, end, start, taken), c)
    ensures n > 0
    ensures Steps(p, Config(at, c), n)
         == Config(Landing(t, at + |Over(ls, cond, v, tr, over).code|, end, start,
                           !Holds(cond, Signed32(Get(c.regs, v))) && taken), c)
  {
    n := RunBranch32(p, at, ls, Ahead(|over.code|), cond, v, tr, c, end, start);
    if !Holds(cond, Signed32(Get(c.regs, v))) {
      StepsAdd(p, Config(at, c), n, m);
      n := n + m;
    }
  }

  lemma RunLEqual(p: seq<Instr>, at: nat, ls: nat, t: Target, v: Reg, tr: Ls, c: Core, end: int, start: int)
    returns (n: nat)
    requires !t.Ahead?
    requires Holding(p, at, Branch64(ls, t, LEqual, v, tr).code, end, start)
    ensures n > 0
    ensures Steps(p, Config(at, c), n)
         == Config(Landing(t, at + |Branch64(ls, t, LEqual, v, tr).code|, end, start,
                           Holds(LEqual, Signed64(Get64(c.regs, v)))), c)
  {
    SignOfPair(c.regs, v);
    var lo, hi := v, v + 1;
    var t1 := Tested(ls, Less, hi, tr);
    var t2 := Tested(ls, NEqual, hi, t1);
    var first := Branch32(ls, t, Less, hi, tr);
    var last := Branch32(ls, t, Equal, lo, t2);
    var skip := Branch32(ls, Ahead(|last.code|), NEqual, hi, t1);
    HoldingConcat(p, at, first.code, skip.code + last.code, end, start);
    HoldingConcat(p, at + |first.code|, skip.code, last.code, end, start);
    n := RunBranch32(p, at + |first.code| + |skip.code|, ls, t, Equal, lo, t2, c, end, start);
    n := RunUnless(p, at + |first.code|, ls, t, NEqual, hi, t1, last, c, end, start,
                   Holds(Equal, Signed32(Get(c.regs, lo))), n);
    n := RunEither(p, at, ls, t, Less, hi, tr, Over(ls, NEqual, hi, t1, last), c, end, start,
                   Holds(Equal, Signed64(Get64(c.regs, v))), n);
  }

  lemma RunGreater(p: seq<Instr>, at: nat, ls: nat, t: Target, v: Reg, tr: Ls, c: Core, end: int, start: int)
    returns (n: nat)
    requires !t.Ahead?
    requires Holding(p, at, Branch64(ls, t, Greater, v, tr).code, end, start)
    ensures n > 0
    ensures Steps(p, Config(at, c), n)
         == Config(Landing(t, at + |Branch64(ls, t, Greater, v, tr).code|, end, start,
                           Holds(Greater, Signed64(Get64(c.regs, v)))), c)
  {
    SignOfPair(c.regs, v);
    var lo, hi := v, v + 1;
    var t1 := Tested(ls, Less, hi, tr);
    var t2 := Tested(ls, NEqual, hi, t1);
    var mid := Branch32(ls, t, NEqual, hi, t1);
    var last := Branch32(ls, t, NEqual, lo, t2);
    var over := Then(mid, last);
    var skip := Branch32(ls, Ahead(|over.code|), Less, hi, tr);
    HoldingConcat(p, at, skip.code, over.code, end, start);
    HoldingConcat(p, at + |skip.code|, mid.code, last.code, end, start);
    n := RunBranch32(p, at + |skip.code| + |mid.code|, ls, t, NEqual, lo, t2, c, end, start);
    n := RunEither(p, at + |skip.code|, ls, t, NEqual, hi, t1, last, c, end, start,
                   Holds(NEqual, Signed32(Get(c.regs, lo))), n);
    n := RunUnless(p, at, ls, t, Less, hi, tr, over, c, end, start, Holds(NEqual, Signed64(Get64(c.regs, v))), n);
  }

  /** A condition on a pair of registers is decided by the branches on its halves. */
  lemma RunBranch64(p: seq<Instr>, at: nat, ls: nat, t: Target, cond: Cond, v: Reg, tr: Ls, c: Core, end: int,
                    start: int)
    returns (n: nat)
    requires !t.Ahead?
    requires Holding(p, at, Branch64(ls, t, cond, v, tr).code, end, start)
    ensures n > 0
    ensures Steps(p, Config(at, c), n)
         == Config(Landing(t, at + |Branch64(ls, t, cond, v, tr).code|, end, start,
                           Holds(cond, Signed64(Get64(c.regs, v)))), c)
  {
    hide Branch32, Steps, Holding, Get64, Signed64;
    var lo, hi := v, v + 1;
    SignOfPair(c.regs, v);
    match cond
    case Always => n := RunBranch32(p, at, ls, t, Always, 0, tr, c, end, start);
    case Less => n := RunBranch32(p, at, ls, t, Less, hi, tr, c, end, start);
    case LEqual => n := RunLEqual(p, at, ls, t, v, tr, c, end, start);
    case Greater => n := RunGreater(p, at, ls, t, v, tr, c, end, start);
    case GEqual =>
      var t1 := Tested(ls, Less, hi, tr);
      var last := Branch32(ls, t, Always, 0, t1);
      var skip := Branch32(ls, Ahead(|last.code|), Less, hi, tr);
      HoldingConcat(p, at, skip.code, last.code, end, start);
      n := RunBranch32(p, at + |skip.code|, ls, t, Always, 0, t1, c, end, start);
      n := RunUnless(p, at, ls, t, Less, hi, tr, last, c, end, start, true, n);
    case NEqual =>
      var t1 := Tested(ls, NEqual, lo, tr);
      var first, last := Branch32(ls, t, NEqual, lo, tr), Branch32(ls, t, NEqual, hi, t1);
      HoldingConcat(p, at, first.code, last.code, end, start);
      n := RunBranch32(p, at + |first.code|, ls, t, NEqual, hi, t1, c, end, start);
      n := RunEither(p, at, ls, t, NEqual, lo, tr, last, c, end, start, Holds(NEqual, Signed32(Get(c.regs, hi))), n);
    case Equal =>
      var t1 := Tested(ls, NEqual, lo, tr);
      var last := Branch32(ls, t, Equal, hi, t1);
      var skip := Branch32(ls, Ahead(|last.code|), NEqual, lo, tr);
      HoldingConcat(p, at, skip.code, last.code, end, start);
      n := RunBranch32(p, at + |skip.code|, ls, t, Equal, hi, t1, c, end, start);
      n := RunUnless(p, at, ls, t, NEqual, lo, tr, last, c, end, start, Holds(Equal, Signed32(Get(c.regs, hi))), n);
  }

  lemma RunBranch(p: seq<Instr>, at: nat, ls: nat, t: Target, cond: Cond, v: Val, tr: Ls, c: Core, end: int, start: int)
    returns (n: nat)
    requires !t.Ahead?
    requires Holding(p, at, GenBranch(ls, t, cond, v, tr).code, end, start)
    ensures n > 0
    ensures Steps(p, Config(at, c), n)
         == Config(Landing(t, at + |GenBranch(ls, t, cond, v, tr).code|, end, start, Test(cond, v, c)), c)
  {
    if v.wide {
      n := RunBranch64(p, at, ls, t, cond, v.reg, tr, c, end, start);
    } else {
      n := RunBranch32(p, at, ls, t, cond, v.reg, tr, c, end, start);
    }
  }

  lemma AlwaysHolds(v: Val, c: Core)
    ensures Test(Always, v, c)
  {
  }

  lemma InvertFlips(c: Cond, v: Val, s: Core)
    requires c != Always
    ensures Test(Invert(c), v, s) == !Test(c, v, s)
  {
  }

  lemma RunAway(p: seq<Instr>, at: nat, k: nat, loads: set<Reg>, c: Core, end: int, start: int)
    requires Holding(p, at, [Emit(Branch(k, Always, 0), loads)], end, start)
    ensures Steps(p, Config(at, c), 1) == Config(at + 1 + k, c)
  {
    HoldingOne(p, at, Emit(Branch(k, Always, 0), loads), end, start);
    assert Steps(p, Config(at, c), 1) == Steps(p, Step(p, Config(at, c)), 0);
  }

  lemma {:induction false} RunBlank(p: seq<Instr>, at: nat, k: nat, loads: set<Reg>, c: Core, end: int, start: int)
    requires Holding(p, at, Blank(k, loads), end, start)
    ensures Steps(p, Config(at, c), k) == Config(at + k, c)
    decreases k
  {
    if k > 0 {
      var last := [Emit(Nop, loads)];
      assert Blank(k, loads) == Blank(k - 1, loads) + last;
      HoldingConcat(p, at, Blank(k - 1, loads), last, end, start);
      RunBlank(p, at, k - 1, loads, c, end, start);
      HoldingOne(p, at + k - 1, Emit(Nop, loads), end, start);
      OneOp(p, at + k - 1, c);
      StepsAdd(p, Config(at, c), k - 1, 1);
    }
  }

  // ----- Simulation --------------------------------------------------------------------------

  /** Where control is after a statement that occupies `at..after`. */
  ghost predicate Arrived(r: Outcome, d: Config, n: nat, fuel: nat, at: nat, after: nat, end: int, start: int) {
    match r
    case Done(c) => d == Config(after, c)
    case Broke(c) => d == Config(end, c)
    case Continued(c) => d == Config(start, c) && n > 0
    case Timeout(c) => at <= d.pc < after && d.core == c && n >= fuel
  }

  lemma Continue(p: seq<Instr>, c: Config, m: nat, d: Config, n: nat, r: Outcome, fuel: nat, at: nat, at': nat,
                 after: nat, end: int, start: int)
    requires Steps(p, c, m) == d && at <= at'
    requires Arrived(r, Steps(p, d, n), n, fuel, at', after, end, start)
    ensures Arrived(r, Steps(p, c, m + n), m + n, fuel, at, after, end, start)
  {
    StepsAdd(p, c, m, n);
  }

  /** Running the code of `s` from any state ends where, and in the state in which, `s` ends; while
      `s` keeps looping the machine keeps running inside its code. */
  lemma {:induction false} Simulate(p: seq<Instr>, at: nat, ls: nat, s: Stmt, brk: bool, cont: bool, g: Ctx, head: Ls,
                                    fuel: nat, c: Core, end: int, start: int)
    returns (n: nat)
    requires WellFormed(s, brk, cont)
    requires Holding(p, at, Gen(ls, s, g, head).code, end, start)
    ensures Arrived(Exec(s, fuel, c), Steps(p, Config(at, c), n), n, fuel, at,
                    at + |Gen(ls, s, g, head).code|, end, start)
    decreases fuel, s, 1
  {
    hide Branch64, Branch32, Holding, Step, ExecOp, Test, Invert, After;
    hide GenCases, ExecCases, ExecLoop, OutIf, OutIfElse, OutWhile, OutMaybe;
    match s
    case Skip => n := 0;
    case Op(i) => n := RunOp(p, at, ls, i, g.tr, c, end, start);
    case FlushLoads => n := RunWait(p, at, ls, g.tr.loads != {}, g.tr, c, end, start);
    case FlushStores => n := RunWait(p, at, ls, g.tr.stores, g.tr, c, end, start);
    case Seq(a, b) => n := SimulateSeq(p, at, ls, a, b, brk, cont, g, head, fuel, c, end, start);
    case If(cond, v, t) => n := SimulateIf(p, at, ls, cond, v, t, brk, cont, g, head, fuel, c, end, start);
    case IfElse(cond, v, t, e) => n := SimulateIfElse(p, at, ls, cond, v, t, e, brk, cont, g, head, fuel, c, end,
                                                      start);
    case While(cond, v, body) => n := SimulateWhile(p, at, ls, cond, v, body, g, fuel, c, end, start);
    case BreakIf(cond, v) => n := RunBranch(p, at, ls, End, cond, v, g.tr, c, end, start);
    case ContinueIf(cond, v) =>
      var need := g.tr.loads - head.loads != {};
      var w := WaitIf(ls, need, g.tr);
      n := RunWaitBranch(p, at, ls, need, Start, cond, v, g.tr, c, end, start);
    case Match(v, scratch, cs) =>
      n := SimulateCases(p, at, ls, v, scratch, cs, brk, cont, true, g.tr, IDLE, g.(pend := false), head, fuel, c, end,
                         start);
    case Maybe(patched, body) =>
      n := SimulateMaybe(p, at, ls, patched, body, cont, g, head, fuel, c, end, start);
  }

  lemma RunWaitBranch(p: seq<Instr>, at: nat, ls: nat, need: bool, t: Target, cond: Cond, v: Val, tr: Ls, c: Core,
                      end: int, start: int)
    returns (n: nat)
    requires !t.Ahead?
    requires Holding(p, at, WaitIf(ls, need, tr).code + GenBranch(ls, t, cond, v, WaitIf(ls, need, tr).tr).code, end,
                     start)
    ensures n > 0
    ensures Steps(p, Config(at, c), n)
         == Config(Landing(t, at + |WaitIf(ls, need, tr).code|
                           + |GenBranch(ls, t, cond, v, WaitIf(ls, need, tr).tr).code|,
                           end, start, Test(cond, v, c)), c)
  {
    hide Branch64, Branch32, Holding, Step, Test;
    var w := WaitIf(ls, need, tr);
    HoldingConcat(p, at, w.code, GenBranch(ls, t, cond, v, w.tr).code, end, start);
    n := RunWait(p, at, ls, need, tr, c, end, start);
    var m := RunBranch(p, at + |w.code|, ls, t, cond, v, w.tr, c, end, start);
    StepsAdd(p, Config(at, c), n, m);
    n := n + m;
  }

  lemma {:induction false} SimulateSeq(p: seq<Instr>, at: nat, ls: nat, a: Stmt, b: Stmt, brk: bool, cont: bool, g: Ctx,
                                       head: Ls, fuel: nat, c: Core, end: int, start: int)
    returns (n: nat)
    requires WellFormed(a, brk, cont) && WellFormed(b, brk, cont)
    requires Holding(p, at, Gen(ls, a, g, head).code + Gen(ls, b, Gen(ls, a, g, head).ctx, head).code, end, start)
    ensures Arrived(if Exec(a, fuel, c).Done? then Exec(b, fuel, Exec(a, fuel, c).core) else Exec(a, fuel, c),
                    Steps(p, Config(at, c), n), n, fuel,
                    at, at + |Gen(ls, a, g, head).code| + |Gen(ls, b, Gen(ls, a, g, head).ctx, head).code|, end, start)
    decreases fuel, Stmt.Seq(a, b), 0
  {
    hide Gen, Exec, Holding, Step, WellFormed;
    var x := Gen(ls, a, g, head);
    var y := Gen(ls, b, x.ctx, head);
    HoldingConcat(p, at, x.code, y.code, end, start);
    n := Simulate(p, at, ls, a, brk, cont, g, head, fuel, c, end, start);
    var r := Exec(a, fuel, c);
    if r.Done? {
      var m := Simulate(p, at + |x.code|, ls, b, brk, cont, x.ctx, head, fuel, r.core, end, start);
      Continue(p, Config(at, c), n, Config(at + |x.code|, r.core), m, Exec(b, fuel, r.core), fuel,
               at, at + |x.code|, at + |x.code| + |y.code|, end, start);
      n := n + m;
    }
  }

  lemma {:induction false} SimulateMaybe(p: seq<Instr>, at: nat, ls: nat, patched: bool, body: Stmt, cont: bool, g: Ctx,
                                         head: Ls, fuel: nat, c: Core, end: int, start: int)
    returns (n: nat)
    requires WellFormed(body, false, cont)
    requires Holding(p, at, OutMaybe(ls, patched, g.tr, Gen(ls, body, g.(pend := false), head)).code, end, start)
    ensures Arrived(if patched then Exec(body, fuel, c) else Done(c), Steps(p, Config(at, c), n), n, fuel,
                    at, at + |OutMaybe(ls, patched, g.tr, Gen(ls, body, g.(pend := false), head)).code|, end, start)
    decreases fuel, Stmt.Maybe(patched, body), 0
  {
    hide Gen, Exec, Holding, Step, WellFormed;
    var x := Gen(ls, body, g.(pend := false), head);
    var need := x.ctx.tr.loads - g.tr.loads != {} || (x.ctx.tr.stores && !g.tr.stores);
    var w := WaitIf(ls, need, x.ctx.tr);
    if patched {
      HoldingConcat(p, at, x.code, w.code, end, start);
      n := Simulate(p, at, ls, body, false, cont, g.(pend := false), head, fuel, c, end, start);
      var r := Exec(body, fuel, c);
      if r.Done? {
        var m := RunWait(p, at + |x.code|, ls, need, x.ctx.tr, r.core, end, start);
        StepsAdd(p, Config(at, c), n, m);
        n := n + m;
      }
    } else {
      n := |x.code + w.code|;
      RunBlank(p, at, n, g.tr.loads, c, end, start);
    }
  }

  lemma {:induction false} SimulateIf(p: seq<Instr>, at: nat, ls: nat, cond: Cond, v: Val, t: Stmt, brk: bool,
                                      cont: bool, g: Ctx, head: Ls, fuel: nat, c: Core, end: int, start: int)
    returns (n: nat)
    requires cond != Always && WellFormed(t, brk, cont)
    requires var q := GenBranch(ls, End, Invert(cond), v, g.tr);
             Holding(p, at, OutIf(q, Gen(ls, t, Ctx(q.tr, g.ifLs, false), head)).code, end, start)
    ensures var q := GenBranch(ls, End, Invert(cond), v, g.tr);
            Arrived(if Test(cond, v, c) then Exec(t, fuel, c) else Done(c), Steps(p, Config(at, c), n), n, fuel,
                    at, at + |OutIf(q, Gen(ls, t, Ctx(q.tr, g.ifLs, false), head)).code|, end, start)
    decreases fuel, Stmt.If(cond, v, t), 0
  {
    hide Gen, Exec, Holding, Step, WellFormed, Branch64, Branch32, Test, Invert;
    var q := GenBranch(ls, End, Invert(cond), v, g.tr);
    var g1 := Ctx(q.tr, g.ifLs, false);
    var x := Gen(ls, t, g1, head);
    var e := |q.code| + |x.code|;
    HoldingConcat(p, at, Resolve(q.code, e, 0), x.code, end, start);
    HoldingResolved(p, at, q.code, e, 0, end, start);
    InvertFlips(cond, v, c);
    n := RunBranch(p, at, ls, End, Invert(cond), v, g.tr, c, at + e, at);
    if Test(cond, v, c) {
      var m := Simulate(p, at + |q.code|, ls, t, brk, cont, g1, head, fuel, c, end, start);
      Continue(p, Config(at, c), n, Config(at + |q.code|, c), m, Exec(t, fuel, c), fuel, at, at + |q.code|, at + e, end,
               start);
      n := n + m;
    }
  }

  lemma {:induction false} SimulateIfElse(p: seq<Instr>, at: nat, ls: nat, cond: Cond, v: Val, t: Stmt, f: Stmt,
                                          brk: bool, cont: bool,
                                          g: Ctx, head: Ls, fuel: nat, c: Core, end: int, start: int)
    returns (n: nat)
    requires cond != Always && WellFormed(t, brk, cont) && WellFormed(f, brk, cont)
    requires var q := GenBranch(ls, End, Invert(cond), v, g.tr);
             var x := Gen(ls, t, Ctx(q.tr, g.ifLs, false), head);
             Holding(p, at, OutIfElse(q, x, Gen(ls, f, ElseCtx(q, x), head)).code, end, start)
    ensures var q := GenBranch(ls, End, Invert(cond), v, g.tr);
            var x := Gen(ls, t, Ctx(q.tr, g.ifLs, false), head);
            Arrived(if Test(cond, v, c) then Exec(t, fuel, c)
                    else Exec(f, fuel, c), Steps(p, Config(at, c), n), n, fuel,
                    at, at + |OutIfElse(q, x, Gen(ls, f, ElseCtx(q, x), head)).code|, end, start)
    decreases fuel, Stmt.IfElse(cond, v, t, f), 0
  {
    hide Gen, Exec, Holding, Step, WellFormed, Branch64, Branch32, Test, Invert;
    var q := GenBranch(ls, End, Invert(cond), v, g.tr);
    var g1 := Ctx(q.tr, g.ifLs, false);
    var x := Gen(ls, t, g1, head);
    var y := Gen(ls, f, ElseCtx(q, x), head);
    var e := |q.code| + |x.code| + 1;
    var away := [Emit(Branch(|y.code|, Always, 0), x.ctx.tr.loads)];
    var after := at + e + |y.code|;
    HoldingConcat(p, at, Resolve(q.code, e, 0) + x.code + away, y.code, end, start);
    HoldingConcat(p, at, Resolve(q.code, e, 0) + x.code, away, end, start);
    HoldingConcat(p, at, Resolve(q.code, e, 0), x.code, end, start);
    HoldingResolved(p, at, q.code, e, 0, end, start);
    InvertFlips(cond, v, c);
    n := RunBranch(p, at, ls, End, Invert(cond), v, g.tr, c, at + e, at);
    if Test(cond, v, c) {
      var r := Exec(t, fuel, c);
      var m := Simulate(p, at + |q.code|, ls, t, brk, cont, g1, head, fuel, c, end, start);
      Continue(p, Config(at, c), n, Config(at + |q.code|, c), m, r, fuel, at, at + |q.code|, at + e - 1, end, start);
      n := n + m;
      if r.Done? {
        RunAway(p, at + e - 1, |y.code|, x.ctx.tr.loads, r.core, end, start);
        StepsAdd(p, Config(at, c), n, 1);
        n := n + 1;
      }
    } else {
      var m := Simulate(p, at + e, ls, f, brk, cont, ElseCtx(q, x), head, fuel, c, end, start);
      Continue(p, Config(at, c), n, Config(at + e, c), m, Exec(f, fuel, c), fuel, at, at + e, after, end, start);
      n := n + m;
    }
  }

  /** The code from the start label of a loop at `l` to its end label at `e`. */
  ghost predicate HoldingLoop(p: seq<Instr>, l: nat, ls: nat, cond: Cond, v: Val, body: Stmt, g1: Ctx, e: nat) {
    var x := Gen(ls, body, g1, g1.tr);
    var w := WaitIf(ls, x.ctx.tr.loads - g1.tr.loads != {}, x.ctx.tr);
    var back := GenBranch(ls, Start, cond, v, w.tr);
    && Holding(p, l, x.code, e, l)
    && Holding(p, l + |x.code|, w.code + back.code, e, l)
    && e == l + |x.code| + |w.code| + |back.code|
  }

  lemma WhileParts(p: seq<Instr>, at: nat, ls: nat, cond: Cond, v: Val, body: Stmt, q: Piece, g1: Ctx, end: int,
                   start: int)
    requires g1.tr == q.tr
    requires Holding(p, at, OutWhile(ls, cond, v, q, Gen(ls, body, g1, q.tr)).code, end, start)
    ensures var e := at + |OutWhile(ls, cond, v, q, Gen(ls, body, g1, q.tr)).code|;
            Holding(p, at, q.code, e, at + |q.code|) && HoldingLoop(p, at + |q.code|, ls, cond, v, body, g1, e)
  {
    hide Gen, GenBranch, Holding, WaitIf;
    var x := Gen(ls, body, g1, q.tr);
    var w := WaitIf(ls, x.ctx.tr.loads - q.tr.loads != {}, x.ctx.tr);
    var back := GenBranch(ls, Start, cond, v, w.tr);
    var inner := q.code + x.code + w.code + back.code;
    var e, l := at + |inner|, at + |q.code|;
    HoldingResolved(p, at, inner, |inner|, |q.code|, end, start);
    assert inner == q.code + (x.code + (w.code + back.code));
    HoldingConcat(p, at, q.code, x.code + (w.code + back.code), e, l);
    HoldingConcat(p, l, x.code, w.code + back.code, e, l);
  }

  lemma {:induction false} SimulateWhile(p: seq<Instr>, at: nat, ls: nat, cond: Cond, v: Val, body: Stmt, g: Ctx,
                                         fuel: nat, c: Core, end: int, start: int)
    returns (n: nat)
    requires WellFormed(body, true, true)
    requires var q := if cond == Always then Piece([], g.tr) else GenBranch(ls, End, Invert(cond), v, g.tr);
             Holding(p, at, OutWhile(ls, cond, v, q, Gen(ls, body, Ctx(q.tr, g.ifLs, false), q.tr)).code, end, start)
    ensures var q := if cond == Always then Piece([], g.tr) else GenBranch(ls, End, Invert(cond), v, g.tr);
            Arrived(if Test(cond, v, c) then ExecLoop(cond, v, body, fuel, c)
                    else Done(c), Steps(p, Config(at, c), n), n, fuel,
                    at, at + |OutWhile(ls, cond, v, q, Gen(ls, body, Ctx(q.tr, g.ifLs, false), q.tr)).code|, end, start)
    decreases fuel, Stmt.While(cond, v, body), 0
  {
    hide Gen, Exec, ExecLoop, HoldingLoop, Step, WellFormed, GenBranch, Test, Invert, OutWhile;
    var q := if cond == Always then Piece([], g.tr) else GenBranch(ls, End, Invert(cond), v, g.tr);
    var g1 := Ctx(q.tr, g.ifLs, false);
    var l := at + |q.code|;
    var e := at + |OutWhile(ls, cond, v, q, Gen(ls, body, g1, q.tr)).code|;
    WhileParts(p, at, ls, cond, v, body, q, g1, end, start);
    if cond == Always {
      AlwaysHolds(v, c);
      n := 0;
    } else {
      InvertFlips(cond, v, c);
      n := RunBranch(p, at, ls, End, Invert(cond), v, g.tr, c, e, l);
    }
    if Test(cond, v, c) {
      var m := SimulateLoop(p, l, ls, cond, v, body, g1, fuel, c, e);
      Continue(p, Config(at, c), n, Config(l, c), m, ExecLoop(cond, v, body, fuel, c), fuel, at, l, e, 0, 0);
      n := n + m;
    }
  }

  predicate GoesRound(r: Outcome, cond: Cond, v: Val) {
    r.Continued? || (r.Done? && Test(cond, v, r.core))
  }

  /** One pass over a loop body. */
  lemma {:induction false} SimulatePass(p: seq<Instr>, l: nat, ls: nat, cond: Cond, v: Val, body: Stmt, g1: Ctx,
                                        fuel: nat, c: Core, e: nat)
    returns (n: nat)
    requires WellFormed(body, true, true)
    requires HoldingLoop(p, l, ls, cond, v, body, g1, e)
    ensures l < e
    ensures var r := Exec(body, fuel, c);
            var d := Steps(p, Config(l, c), n);
            if r.Timeout? then l <= d.pc < e && d.core == r.core && n >= fuel
            else if GoesRound(r, cond, v) then d == Config(l, r.core) && n > 0
            else d == Config(e, r.core)
    decreases fuel, body, 2
  {
    hide Gen, Exec, Holding, Step, WellFormed, Branch64, Branch32, Test;
    var x := Gen(ls, body, g1, g1.tr);
    var need := x.ctx.tr.loads - g1.tr.loads != {};
    BranchNotEmpty(ls, Start, cond, v, WaitIf(ls, need, x.ctx.tr).tr);
    n := Simulate(p, l, ls, body, true, true, g1, g1.tr, fuel, c, e, l);
    var r := Exec(body, fuel, c);
    if r.Done? {
      var m := RunWaitBranch(p, l + |x.code|, ls, need, Start, cond, v, x.ctx.tr, r.core, e, l);
      StepsAdd(p, Config(l, c), n, m);
      n := n + m;
    }
  }

  lemma {:induction false} SimulateLoop(p: seq<Instr>, l: nat, ls: nat, cond: Cond, v: Val, body: Stmt, g1: Ctx,
                                        fuel: nat, c: Core, e: nat)
    returns (n: nat)
    requires WellFormed(body, true, true)
    requires HoldingLoop(p, l, ls, cond, v, body, g1, e)
    ensures ExecLoop(cond, v, body, fuel, c).Done? || ExecLoop(cond, v, body, fuel, c).Timeout?
    ensures Arrived(ExecLoop(cond, v, body, fuel, c), Steps(p, Config(l, c), n), n, fuel, l, e, 0, 0)
    decreases fuel, body, 3
  {
    hide Gen, Exec, HoldingLoop, Step, WellFormed, Test;
    n := SimulatePass(p, l, ls, cond, v, body, g1, fuel, c, e);
    var r := Exec(body, fuel, c);
    if GoesRound(r, cond, v) && fuel > 0 {
      var m := SimulateLoop(p, l, ls, cond, v, body, g1, fuel - 1, r.core, e);
      StepsAdd(p, Config(l, c), n, m);
      n := n + m;
    }
  }

  lemma BranchNotEmpty(ls: nat, t: Target, cond: Cond, v: Val, tr: Ls)
    ensures |GenBranch(ls, t, cond, v, tr).code| > 0
  {
  }

  lemma RunTest(p: seq<Instr>, at: nat, ls: nat, v: Reg, scratch: Reg, id: Word, k: nat, tr: Ls, view: set<Reg>,
                c: Core, end: int, start: int)
    returns (n: nat)
    requires v != scratch
    requires Holding(p, at, GenTest(ls, v, scratch, id, k, tr, view).code, end, start)
    ensures var c1 := TestCase(v, scratch, id, c);
            var after := at + |GenTest(ls, v, scratch, id, k, tr, view).code|;
            Steps(p, Config(at, c), n)
              == Config(if Get(c1.regs, if id == 0 then v else scratch) == 0 then after else after + k, c1)
  {
    hide Steps, Holding, Clash;
    var sub := AddImm32(scratch, v, 0 - id);
    var need := if id == 0 then v in tr.loads else Clash(sub, tr.loads);
    var wait := if need then [Emit(Wait({ls}), view)] else [];
    var seen := if need then {} else view;
    var here := at + |wait|;
    var c1 := TestCase(v, scratch, id, c);
    if id == 0 {
      HoldingConcat(p, at, wait, [Emit(Branch(k, NEqual, v), seen)], end, start);
      HoldingOne(p, here, Emit(Branch(k, NEqual, v), seen), end, start);
      n := RunTestWait(p, at, ls, need, view, c, end, start);
      RunSkip(p, here, NEqual, v, k, c);
      StepsAdd(p, Config(at, c), n, 1);
      n := n + 1;
    } else {
      var two := [Emit(sub, seen), Emit(Branch(k, NEqual, scratch), seen)];
      assert two == [Emit(sub, seen)] + [Emit(Branch(k, NEqual, scratch), seen)];
      HoldingConcat(p, at, wait, two, end, start);
      HoldingConcat(p, here, [Emit(sub, seen)], [Emit(Branch(k, NEqual, scratch), seen)], end, start);
      HoldingOne(p, here, Emit(sub, seen), end, start);
      HoldingOne(p, here + 1, Emit(Branch(k, NEqual, scratch), seen), end, start);
      n := RunTestWait(p, at, ls, need, view, c, end, start);
      OneOp(p, here, c);
      StepsAdd(p, Config(at, c), n, 1);
      RunSkip(p, here + 1, NEqual, scratch, k, c1);
      StepsAdd(p, Config(at, c), n + 1, 1);
      n := n + 2;
    }
  }

  lemma RunTestWait(p: seq<Instr>, at: nat, ls: nat, need: bool, view: set<Reg>, c: Core, end: int,
                    start: int) returns (n: nat)
    requires Holding(p, at, if need then [Emit(Wait({ls}), view)] else [], end, start)
    ensures Steps(p, Config(at, c), n) == Config(if need then at + 1 else at, c)
  {
    if need {
      HoldingOne(p, at, Emit(Wait({ls}), view), end, start);
      OneOp(p, at, c);
      n := 1;
    } else {
      n := 0;
    }
  }

  lemma RunSkip(p: seq<Instr>, at: nat, cond: Cond, v: Reg, k: nat, c: Core)
    requires at < |p| && p[at] == Branch(k, cond, v)
    ensures Steps(p, Config(at, c), 1) == Config(if Holds(cond, Signed32(Get(c.regs, v))) then at + 1 + k
                                                 else at + 1, c)
  {
    assert Steps(p, Config(at, c), 1) == Steps(p, Step(p, Config(at, c)), 0);
  }

  lemma {:induction false} SimulateCases(p: seq<Instr>, at: nat, ls: nat, v: Reg, scratch: Reg, cs: Cases, brk: bool,
                                         cont: bool,
                                         first: bool, orig: Ls, acc: Ls, g: Ctx, head: Ls,
                                         fuel: nat, c: Core, end: int, start: int)
    returns (n: nat)
    requires WellFormedCases(cs, brk, cont) && v != scratch
    requires Holding(p, at, GenCases(ls, v, scratch, cs, first, orig, acc, g, head).code, end, start)
    ensures Arrived(ExecCases(v, scratch, cs, fuel, c), Steps(p, Config(at, c), n), n, fuel,
                    at, at + |GenCases(ls, v, scratch, cs, first, orig, acc, g, head).code|, end, start)
    decreases fuel, cs, 1
  {
    hide Gen, Exec, Holding, Step, WellFormed, GenTest;
    match cs
    case NoCase => n := 0;
    case Default(body) =>
      n := Simulate(p, at, ls, body, brk, cont, Ctx(orig, g.ifLs, false), head, fuel, c, end, start);
    case Case(_, _, _) => n := SimulateCase(p, at, ls, v, scratch, cs, brk, cont, first, orig, acc, g, head, fuel, c,
                                            end, start);
  }

  /** The parts of a case. */
  lemma CaseIs(ls: nat, v: Reg, scratch: Reg, cs: Cases, first: bool, orig: Ls, acc: Ls, g: Ctx, head: Ls, fuel: nat,
               c: Core)
    requires cs.Case?
    ensures var view := if first then g.tr.loads else orig.loads;
            var orig' := if first then GenTest(ls, v, scratch, cs.id, 0, g.tr, view).tr else orig;
            var x := Gen(ls, cs.body, Ctx(orig', g.ifLs, false), head);
            var y := GenCases(ls, v, scratch, cs.rest, false, orig', Join(acc, x.ctx.tr), x.ctx, head);
            var tail := if cs.rest.NoCase? then [] else [Emit(Branch(|y.code|, Always, 0), x.ctx.tr.loads)] + y.code;
            var k := |x.code| + if cs.rest.NoCase? then 0 else 1;
            GenCases(ls, v, scratch, cs, first, orig, acc, g, head).code
                    == GenTest(ls, v, scratch, cs.id, k, g.tr, view).code + x.code + tail
    ensures var c1 := TestCase(v, scratch, cs.id, c);
            ExecCases(v, scratch, cs, fuel, c) == if Get(c1.regs, if cs.id == 0 then v else scratch)
                    == 0 then Exec(cs.body, fuel, c1)
                                                  else ExecCases(v, scratch, cs.rest, fuel, c1)
    ensures cs.rest.NoCase? ==>
             ExecCases(v, scratch, cs.rest, fuel, TestCase(v, scratch, cs.id, c))
             == Done(TestCase(v, scratch, cs.id, c))
  {
    hide Gen, GenTest, Exec;
  }

  lemma {:induction false} SimulateCase(p: seq<Instr>, at: nat, ls: nat, v: Reg, scratch: Reg, cs: Cases, brk: bool,
                                        cont: bool,
                                        first: bool, orig: Ls, acc: Ls, g: Ctx, head: Ls,
                                        fuel: nat, c: Core, end: int, start: int)
    returns (n: nat)
    requires cs.Case? && WellFormedCases(cs, brk, cont) && v != scratch
    requires Holding(p, at, GenCases(ls, v, scratch, cs, first, orig, acc, g, head).code, end, start)
    ensures Arrived(ExecCases(v, scratch, cs, fuel, c), Steps(p, Config(at, c), n), n, fuel,
                    at, at + |GenCases(ls, v, scratch, cs, first, orig, acc, g, head).code|, end, start)
    decreases fuel, cs, 0
  {
    hide Gen, GenCases, Exec, ExecCases, Holding, Step, Steps, WellFormed, GenTest, TestCase;
    CaseIs(ls, v, scratch, cs, first, orig, acc, g, head, fuel, c);
    var view := if first then g.tr.loads else orig.loads;
    var orig' := if first then GenTest(ls, v, scratch, cs.id, 0, g.tr, view).tr else orig;
    var g1 := Ctx(orig', g.ifLs, false);
    var x := Gen(ls, cs.body, g1, head);
    var y := GenCases(ls, v, scratch, cs.rest, false, orig', Join(acc, x.ctx.tr), x.ctx, head);
    var away := [Emit(Branch(|y.code|, Always, 0), x.ctx.tr.loads)];
    var tail := if cs.rest.NoCase? then [] else away + y.code;
    var k := |x.code| + if cs.rest.NoCase? then 0 else 1;
    var test := GenTest(ls, v, scratch, cs.id, k, g.tr, view);
    var mid := at + |test.code|;
    HoldingConcat(p, at, test.code + x.code, tail, end, start);
    HoldingConcat(p, at, test.code, x.code, end, start);
    if !cs.rest.NoCase? { HoldingConcat(p, mid + |x.code|, away, y.code, end, start); }
    n := RunTest(p, at, ls, v, scratch, cs.id, k, g.tr, view, c, end, start);
    var c1 := TestCase(v, scratch, cs.id, c);
    if Get(c1.regs, if cs.id == 0 then v else scratch) == 0 {
      var r := Exec(cs.body, fuel, c1);
      var m := Simulate(p, mid, ls, cs.body, brk, cont, g1, head, fuel, c1, end, start);
      Continue(p, Config(at, c), n, Config(mid, c1), m, r, fuel, at, mid, mid + |x.code|, end, start);
      n := n + m;
      if r.Done? && !cs.rest.NoCase? {
        RunAway(p, mid + |x.code|, |y.code|, x.ctx.tr.loads, r.core, end, start);
        StepsAdd(p, Config(at, c), n, 1);
        n := n + 1;
      }
    } else if !cs.rest.NoCase? {
      var m := SimulateCases(p, mid + k, ls, v, scratch, cs.rest, brk, cont, false, orig', Join(acc, x.ctx.tr), x.ctx,
                             head, fuel, c1, end, start);
      Continue(p, Config(at, c), n, Config(mid + k, c1), m, ExecCases(v, scratch, cs.rest, fuel, c1), fuel,
               at, mid + k, mid + |x.code| + |tail|, end, start);
      n := n + m;
    }
  }

  // ----- Main results --------------------------------------------------------------------------

  /** The finished code of a program that is not part of a larger construct. */
  function Finish(code: seq<Item>): (p: seq<Instr>)
    ensures |p| == |code|
  {
    seq(|code|, i requires 0 <= i < |code| => Place(code[i], i, 0, 0))
  }

  lemma {:induction false} StaysInside(s: Stmt, brk: bool, cont: bool, fuel: nat, c: Core)
    requires WellFormed(s, brk, cont)
    ensures Exec(s, fuel, c).Broke? ==> brk
    ensures Exec(s, fuel, c).Continued? ==> cont
    decreases fuel, s, 1
  {
    match s
    case Seq(a, b) =>
      StaysInside(a, brk, cont, fuel, c);
      var r := Exec(a, fuel, c);
      if r.Done? { StaysInside(b, brk, cont, fuel, r.core); }
    case If(_, _, t) => StaysInside(t, brk, cont, fuel, c);
    case IfElse(_, _, t, e) => StaysInside(t, brk, cont, fuel, c); StaysInside(e, brk, cont, fuel, c);
    case While(cond, v, body) => LoopStaysInside(cond, v, body, fuel, c);
    case Match(v, scratch, cs) => CasesStayInside(v, scratch, cs, brk, cont, fuel, c);
    case Maybe(_, body) => StaysInside(body, false, cont, fuel, c);
    case _ =>
  }

  lemma {:induction false} LoopStaysInside(cond: Cond, v: Val, body: Stmt, fuel: nat, c: Core)
    ensures ExecLoop(cond, v, body, fuel, c).Done? || ExecLoop(cond, v, body, fuel, c).Timeout?
    decreases fuel
  {
    var r := Exec(body, fuel, c);
    if fuel > 0 && !r.Timeout? { LoopStaysInside(cond, v, body, fuel - 1, r.core); }
  }

  lemma {:induction false} CasesStayInside(v: Reg, scratch: Reg, cs: Cases, brk: bool, cont: bool, fuel: nat, c: Core)
    requires WellFormedCases(cs, brk, cont)
    ensures ExecCases(v, scratch, cs, fuel, c).Broke? ==> brk
    ensures ExecCases(v, scratch, cs, fuel, c).Continued? ==> cont
    decreases fuel, cs, 1
  {
    match cs
    case NoCase =>
    case Default(body) => StaysInside(body, brk, cont, fuel, c);
    case Case(id, body, rest) =>
      StaysInside(body, brk, cont, fuel, TestCase(v, scratch, id, c));
      CasesStayInside(v, scratch, rest, brk, cont, fuel, TestCase(v, scratch, id, c));
  }

  /** Once the machine has left the code it stays where it is. */
  lemma {:induction false} Rest(p: seq<Instr>, c: Config, n: nat)
    requires c.pc == |p|
    ensures Steps(p, c, n) == c
    decreases n
  {
    if n > 0 { Rest(p, c, n - 1); }
  }

  ghost predicate Ends(p: seq<Instr>, c: Core, d: Core) {
    exists n: nat :: Steps(p, Config(0, c), n) == Config(|p|, d)
  }

  ghost predicate Means(s: Stmt, c: Core, d: Core) {
    exists fuel: nat :: Exec(s, fuel, c) == Done(d)
  }

  /** Compilation preserves meaning, in both directions: from any state the emitted code runs to its
      end in a given final state exactly when the program has that final state; in particular it runs
      for ever exactly when the program does. */
  lemma CompilationPreservesMeaning(ls: nat, s: Stmt, g: Ctx, head: Ls, c: Core, d: Core)
    requires WellFormed(s, false, false)
    ensures Ends(Finish(Gen(ls, s, g, head).code), c, d) <==> Means(s, c, d)
  {
    hide Gen, Exec, Step;
    var code := Gen(ls, s, g, head).code;
    var p := Finish(code);
    assert Holding(p, 0, code, 0, 0);
    if Means(s, c, d) {
      var fuel: nat :| Exec(s, fuel, c) == Done(d);
      var n := Simulate(p, 0, ls, s, false, false, g, head, fuel, c, 0, 0);
      assert Steps(p, Config(0, c), n) == Config(|p|, d);
    }
    if Ends(p, c, d) {
      var m: nat :| Steps(p, Config(0, c), m) == Config(|p|, d);
      var n := Simulate(p, 0, ls, s, false, false, g, head, m, c, 0, 0);
      var r := Exec(s, m, c);
      StaysInside(s, false, false, m, c);
      if m <= n {
        StepsAdd(p, Config(0, c), m, n - m);
        Rest(p, Config(|p|, d), n - m);
      } else {
        StepsAdd(p, Config(0, c), n, m - n);
        Rest(p, Config(|p|, r.core), m - n);
      }
      assert r == Done(d);
    }
  }

  // ----- Programs that do not end --------------------------------------------------------------

  /** The code gets as far as starting `jobs`, in that order. */
  ghost predicate Starts(p: seq<Instr>, c: Core, jobs: seq<Event>) {
    exists n: nat :: jobs <= Steps(p, Config(0, c), n).core.log
  }

  /** The program does, ended or not. */
  ghost predicate Orders(s: Stmt, c: Core, jobs: seq<Event>) {
    exists fuel: nat :: jobs <= Exec(s, fuel, c).core.log
  }

  /** Jobs are only ever added to the log. */
  lemma {:induction false} LogGrows(p: seq<Instr>, c: Config, n: nat)
    ensures c.core.log <= Steps(p, c, n).core.log
    decreases n
  {
    if n > 0 { LogGrows(p, Step(p, c), n - 1); }
  }

  /** Whether or not it ever ends: the code starts exactly the jobs the program orders, with the same
      registers and memory, in the same order. */
  lemma SameJobs(ls: nat, s: Stmt, g: Ctx, head: Ls, c: Core, jobs: seq<Event>)
    requires WellFormed(s, false, false)
    ensures Starts(Finish(Gen(ls, s, g, head).code), c, jobs) <==> Orders(s, c, jobs)
  {
    hide Gen, Exec, Step, Steps;
    var code := Gen(ls, s, g, head).code;
    var p := Finish(code);
    assert Holding(p, 0, code, 0, 0);
    if Orders(s, c, jobs) {
      var fuel: nat :| jobs <= Exec(s, fuel, c).core.log;
      var n := Reached(p, ls, s, g, head, fuel, c);
    }
    if Starts(p, c, jobs) {
      var m: nat :| jobs <= Steps(p, Config(0, c), m).core.log;
      var n := Reached(p, ls, s, g, head, m, c);
      if m <= n {
        StepsAdd(p, Config(0, c), m, n - m);
        LogGrows(p, Steps(p, Config(0, c), m), n - m);
      } else {
        StepsAdd(p, Config(0, c), n, m - n);
        Rest(p, Steps(p, Config(0, c), n), m - n);
      }
      assert jobs <= Exec(s, m, c).core.log;
    }
  }

  /** With `fuel` to spend, the program gets as far as the code does in some number of steps: in as many as
      `fuel`, or to the end. */
  lemma Reached(p: seq<Instr>, ls: nat, s: Stmt, g: Ctx, head: Ls, fuel: nat, c: Core) returns (n: nat)
    requires WellFormed(s, false, false) && Holding(p, 0, Gen(ls, s, g, head).code, 0, 0)
    requires |p| == |Gen(ls, s, g, head).code|
    ensures var d := Steps(p, Config(0, c), n);
            d.core == Exec(s, fuel, c).core && (n >= fuel || d.pc == |p|)
  {
    hide Gen, Exec, Step, Steps, WellFormed, Holding;
    n := Simulate(p, 0, ls, s, false, false, g, head, fuel, c, 0, 0);
    StaysInside(s, false, false, fuel, c);
  }
}
