/** Programs one after the other: what their code does together. */
module Sequences {
  import opened Isa
  import opened Structured
  import opened Preservation
  import Tidy
  import Linking
  import opened Choices

  /** What a client does outside any block: a program in a block of its own, a construct that is its own outermost
      block, or one instruction. */
  datatype Command = Block(body: Stmt) | Bare(construct: Stmt) | Outside(i: Instr)

  function StmtOf(c: Command): Stmt {
    match c
    case Block(body) => body
    case Bare(construct) => construct
    case Outside(i) => Op(i)
  }

  function All(cs: seq<Command>): Stmt
    decreases |cs|
  {
    if cs == [] then Skip else Seq(All(cs[..|cs| - 1]), StmtOf(cs[|cs| - 1]))
  }

  /** The context between blocks: there is no `if` to be given an `else`. */
  function Between(g: Ctx): Ctx {
    g.(pend := false)
  }

  /** The context after some commands, outside any block. */
  function CtxAfter(ls: nat, cs: seq<Command>, g: Ctx): Ctx {
    Between(Gen(ls, All(cs), g, IDLE).ctx)
  }

  /** Whether an `if` is pending has no influence on the code. */
  lemma {:induction false} PendIrrelevant(ls: nat, s: Stmt, g: Ctx, head: Ls)
    ensures var x, y := Gen(ls, s, g, head), Gen(ls, s, Between(g), head);
            x.code == y.code && Between(x.ctx) == Between(y.ctx)
    decreases s
  {
    hide GenBranch, GenOp, GenCases, WaitIf;
    match s
    case Seq(a, b) =>
      var x, y := Gen(ls, a, g, head), Gen(ls, a, Between(g), head);
      PendIrrelevant(ls, a, g, head);
      PendIrrelevant(ls, b, x.ctx, head);
      PendIrrelevant(ls, b, y.ctx, head);
    case Match(v, scratch, cs) =>
      assert g.(pend := false) == Between(g).(pend := false);
    case Maybe(_, body) =>
      assert g.(pend := false) == Between(g).(pend := false);
    case _ =>
  }

  lemma FinishConcat(a: seq<Item>, b: seq<Item>)
    requires Tidy.Exits(a, false, false) && Tidy.Exits(b, false, false)
    ensures Finish(a + b) == Finish(a) + Finish(b)
  {
    forall i | 0 <= i < |a + b| ensures Finish(a + b)[i] == (Finish(a) + Finish(b))[i] {
      if i >= |a| { assert (a + b)[i] == b[i - |a|]; }
    }
  }

  ghost predicate Formed(cs: seq<Command>) {
    forall i :: 0 <= i < |cs| ==> WellFormed(StmtOf(cs[i]), false, false)
  }

  lemma {:induction false} AllFormed(cs: seq<Command>)
    requires Formed(cs)
    ensures WellFormed(All(cs), false, false)
    decreases |cs|
  {
    if cs != [] { AllFormed(cs[..|cs| - 1]); }
  }

  lemma {:induction false} AllBelow(cs: seq<Command>, top: Reg)
    requires forall k :: 0 <= k < |cs| ==> Tidy.UsesBelow(StmtOf(cs[k]), top)
    ensures Tidy.UsesBelow(All(cs), top)
    decreases |cs|
  {
    if cs != [] { AllBelow(cs[..|cs| - 1], top); }
  }

  /** One command more. */
  lemma Longer(ls: nat, cs: seq<Command>, c: Command, g: Ctx)
    requires Formed(cs) && WellFormed(StmtOf(c), false, false)
    ensures var x := Gen(ls, StmtOf(c), CtxAfter(ls, cs, g), IDLE);
            && CtxAfter(ls, cs + [c], g) == Between(x.ctx)
            && Finish(Gen(ls, All(cs + [c]), g, IDLE).code) == Finish(Gen(ls, All(cs), g, IDLE).code) + Finish(x.code)
  {
    var more := cs + [c];
    assert more[..|more| - 1] == cs;
    var a := Gen(ls, All(cs), g, IDLE);
    var b := Gen(ls, StmtOf(c), a.ctx, IDLE);
    assert Gen(ls, All(more), g, IDLE).code == a.code + b.code && Gen(ls, All(more), g, IDLE).ctx == b.ctx;
    PendIrrelevant(ls, StmtOf(c), a.ctx, IDLE);
    AllFormed(cs);
    Tidy.CodeExits(ls, All(cs), false, false, g, IDLE);
    Tidy.CodeExits(ls, StmtOf(c), false, false, a.ctx, IDLE);
    FinishConcat(a.code, b.code);
  }

  /** The commands with exactly the maybe blocks `want` of one of them patched in. */
  function Patched(cs: seq<Command>, k: nat, want: seq<bool>): seq<Command>
    requires k < |cs| && |want| == |Flags(StmtOf(cs[k]))|
  {
    cs[k := Block(With(StmtOf(cs[k]), want))]
  }

  /** Patching one block leaves the code of the others, before and after it, as it is. */
  lemma {:induction false} AllPatched(ls: nat, cs: seq<Command>, k: nat, want: seq<bool>, g: Ctx)
    returns (after: seq<Instr>)
    requires k < |cs| && Formed(cs) && |want| == |Flags(StmtOf(cs[k]))|
    ensures var g1 := CtxAfter(ls, cs[..k], g);
            var before := Finish(Gen(ls, All(cs[..k]), g, IDLE).code);
            && Formed(Patched(cs, k, want)) && CtxAfter(ls, Patched(cs, k, want), g) == CtxAfter(ls, cs, g)
            && Finish(Gen(ls, All(cs), g, IDLE).code) == before + Finish(Gen(ls, StmtOf(cs[k]), g1, IDLE).code) + after
            && Finish(Gen(ls, All(Patched(cs, k, want)), g, IDLE).code)
               == before + Finish(Gen(ls, With(StmtOf(cs[k]), want), g1, IDLE).code) + after
    decreases |cs|
  {
    hide Gen, All, Finish, Between, CtxAfter, WellFormed, With, Flags;
    var n := |cs| - 1;
    var front, last, g1 := cs[..n], cs[n], CtxAfter(ls, cs[..k], g);
    PatchedFormed(cs, k, want);
    assert front + [last] == cs;
    if k == n {
      Longer(ls, front, last, g);
      var chosen := Block(With(StmtOf(last), want));
      assert Patched(cs, k, want)[n] == chosen && WellFormed(StmtOf(chosen), false, false);
      Longer(ls, front, chosen, g);
      assert front + [chosen] == Patched(cs, k, want);
      WithSize(ls, StmtOf(last), want, g1, IDLE);
      after := [];
    } else {
      var mid := AllPatched(ls, front, k, want, g);
      assert front[..k] == cs[..k] && front[k] == cs[k] && Patched(front, k, want) + [last] == Patched(cs, k, want);
      Longer(ls, front, last, g);
      Longer(ls, Patched(front, k, want), last, g);
      after := mid + Finish(Gen(ls, StmtOf(last), CtxAfter(ls, front, g), IDLE).code);
    }
  }

  lemma PatchedFormed(cs: seq<Command>, k: nat, want: seq<bool>)
    requires k < |cs| && Formed(cs) && |want| == |Flags(StmtOf(cs[k]))|
    ensures Formed(Patched(cs, k, want)) && Formed(cs[..|cs| - 1])
  {
    WithFormed(StmtOf(cs[k]), want, false, false);
  }

  // ----- Running one after the other --------------------------------------------------------------------

  /** As long as it is in `p`, the machine does not see what comes after it. */
  lemma StepInside(p: seq<Instr>, q: seq<Instr>, c: Config)
    requires 0 <= c.pc < |p|
    ensures Step(p + q, c) == Step(p, c)
  {
    assert (p + q)[c.pc] == p[c.pc];
  }

  lemma StaysIn(p: seq<Instr>, c: Config)
    requires Linking.Closed(p) && 0 <= c.pc <= |p|
    ensures 0 <= Step(p, c).pc <= |p|
  {
  }

  /** Code behind other code runs as it does on its own. */
  lemma {:induction false} Shifted(p: seq<Instr>, q: seq<Instr>, c: Config, n: nat)
    requires Linking.Closed(q) && 0 <= c.pc <= |q|
    ensures var d := Steps(q, c, n);
            0 <= d.pc <= |q| && Steps(p + q, c.(pc := |p| + c.pc), n) == d.(pc := |p| + d.pc)
    decreases n
  {
    if n > 0 {
      var c' := c.(pc := |p| + c.pc);
      StaysIn(q, c);
      if c.pc < |q| { assert (p + q)[c'.pc] == q[c.pc]; }
      assert Step(p + q, c') == Step(q, c).(pc := |p| + Step(q, c).pc);
      Shifted(p, q, Step(q, c), n - 1);
    }
  }

  /** Until it leaves the first part. */
  lemma {:induction false} Passes(p: seq<Instr>, q: seq<Instr>, c: Config, n: nat) returns (k: nat)
    requires Linking.Closed(p) && 0 <= c.pc <= |p|
    ensures k <= n && 0 <= Steps(p, c, k).pc <= |p| && Steps(p + q, c, k) == Steps(p, c, k)
    ensures k == n || Steps(p, c, k).pc == |p|
    decreases n
  {
    if n == 0 || c.pc == |p| { return 0; }
    StepInside(p, q, c);
    StaysIn(p, c);
    k := Passes(p, q, Step(p, c), n - 1);
    k := k + 1;
  }

  /** Two pieces of code that stand on their own run one after the other. */
  lemma OneAfterTheOther(p: seq<Instr>, q: seq<Instr>, c: Core, d: Core)
    requires Linking.Closed(p) && Linking.Closed(q)
    ensures Ends(p + q, c, d) <==> exists m: Core :: Ends(p, c, m) && Ends(q, m, d)
  {
    hide Step, Steps;
    if Ends(p + q, c, d) {
      var n: nat :| Steps(p + q, Config(0, c), n) == Config(|p + q|, d);
      var m := Halfway(p, q, c, d, n);
      assert Ends(p, c, m) && Ends(q, m, d);
    }
    if exists m: Core :: Ends(p, c, m) && Ends(q, m, d) {
      var m: Core :| Ends(p, c, m) && Ends(q, m, d);
      var i: nat :| Steps(p, Config(0, c), i) == Config(|p|, m);
      var j: nat :| Steps(q, Config(0, m), j) == Config(|q|, d);
      var k := Passes(p, q, Config(0, c), i);
      StepsAdd(p, Config(0, c), k, i - k);
      Rest(p, Steps(p, Config(0, c), k), i - k);
      Shifted(p, q, Config(0, m), j);
      StepsAdd(p + q, Config(0, c), k, j);
      assert Steps(p + q, Config(0, c), k + j) == Config(|p + q|, d);
    }
  }

  lemma Halfway(p: seq<Instr>, q: seq<Instr>, c: Core, d: Core, n: nat) returns (m: Core)
    requires Linking.Closed(p) && Linking.Closed(q) && Steps(p + q, Config(0, c), n) == Config(|p + q|, d)
    ensures Ends(p, c, m) && Ends(q, m, d)
  {
    hide Step, Steps;
    var k := Passes(p, q, Config(0, c), n);
    m := Steps(p, Config(0, c), k).core;
    StepsAdd(p + q, Config(0, c), k, n - k);
    if k == n { assert |q| == 0 && Steps(p, Config(0, c), k).pc == |p|; }
    Shifted(p, q, Config(0, m), n - k);
    assert Steps(p, Config(0, c), k) == Config(|p|, m);
    assert Steps(q, Config(0, m), n - k) == Config(|q|, d);
  }

  // ----- One instruction ---------------------------------------------------------------------------------

  lemma OpFinished(ls: nat, i: Instr, g: Ctx)
    ensures var o := Gen(ls, Op(i), g, IDLE);
            && Finish(o.code) == (if Clash(i, g.tr.loads) then [Wait({ls})] else []) + [i]
            && o.ctx == g.(tr := After(ls, i, if Clash(i, g.tr.loads) then IDLE else g.tr), pend := false)
  {
    hide Clash, Finish, After;
    var w := WaitIf(ls, Clash(i, g.tr.loads), g.tr);
    assert Gen(ls, Op(i), g, IDLE).code == w.code + [Emit(i, w.tr.loads)];
    FinishOne(Emit(i, w.tr.loads));
    if Clash(i, g.tr.loads) {
      FinishOne(Emit(Wait({ls}), g.tr.loads));
      FinishConcat(w.code, [Emit(i, w.tr.loads)]);
    } else {
      assert w.code + [Emit(i, w.tr.loads)] == [Emit(i, w.tr.loads)];
    }
  }

  lemma FinishOne(x: Item)
    requires x.Emit?
    ensures Finish([x]) == [x.i]
  {
  }
}
