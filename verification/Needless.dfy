/** No needless waits: code that starts no loads and no stores, and touches nothing that is being loaded, comes out
    without a WAIT. */
module Needless {
  import opened Isa
  import opened Structured

  /** A condition on `v` can be tested while what `t` knows of is pending. */
  predicate Testable(cond: Cond, v: Val, t: Ls) {
    cond == Always || (v.reg !in t.loads && (v.wide ==> v.reg + 1 !in t.loads))
  }

  /** The program starts nothing that could be waited for, does not wait on its own account, and needs nothing of what
      `t` says is pending. */
  predicate Clear(s: Stmt, t: Ls) {
    match s
    case Skip => true
    case Op(i) => !i.Load? && !i.Wait? && !(i.Store? && true in i.mask) && !Clash(i, t.loads)
    case FlushLoads => t.loads == {}
    case FlushStores => !t.stores
    case Seq(a, b) => Clear(a, t) && Clear(b, t)
    case If(cond, v, body) => Testable(cond, v, t) && Clear(body, t)
    case IfElse(cond, v, body, other) => Testable(cond, v, t) && Clear(body, t) && Clear(other, t)
    case While(cond, v, body) => Testable(cond, v, t) && Clear(body, t)
    case BreakIf(cond, v) => Testable(cond, v, t)
    case ContinueIf(cond, v) => Testable(cond, v, t)
    case Match(v, scratch, cs) => v !in t.loads && scratch !in t.loads && ClearCases(cs, t)
    case Maybe(_, body) => Clear(body, t)
  }

  predicate ClearCases(cs: Cases, t: Ls) {
    match cs
    case NoCase => true
    case Default(body) => Clear(body, t)
    case Case(_, body, rest) => Clear(body, t) && ClearCases(rest, t)
  }

  ghost predicate NoWaits(code: seq<Item>) {
    forall k :: 0 <= k < |code| && code[k].Emit? ==> !code[k].i.Wait?
  }

  /** Nothing but `t` is pending anywhere, and nothing has been waited for. */
  ghost predicate Steady(o: Out, t: Ls, ifLs: Ls) {
    && o.ctx.tr == t && (o.ctx.ifLs == t || o.ctx.ifLs == ifLs) && (o.div == t || o.div == IDLE)
    && NoWaits(o.code)
  }

  lemma NoWaitsConcat(a: seq<Item>, b: seq<Item>)
    requires NoWaits(a) && NoWaits(b)
    ensures NoWaits(a + b)
  {
  }

  lemma NoWaitsResolved(code: seq<Item>, end: int, start: int)
    requires NoWaits(code)
    ensures NoWaits(Resolve(code, end, start))
  {
  }

  lemma ClearOp(ls: nat, i: Instr, t: Ls)
    requires Clear(Op(i), t)
    ensures GenOp(ls, i, t).tr == t && NoWaits(GenOp(ls, i, t).code)
  {
  }

  lemma Clear32(ls: nat, x: Target, cond: Cond, v: Reg, t: Ls)
    requires cond == Always || v !in t.loads
    ensures var q := Branch32(ls, x, cond, v, t); q.tr == t && NoWaits(q.code)
  {
  }

  lemma ClearThen(a: Piece, b: Piece)
    requires NoWaits(a.code) && NoWaits(b.code)
    ensures NoWaits(Then(a, b).code) && Then(a, b).tr == b.tr
  {
  }

  lemma ClearBranch(ls: nat, x: Target, cond: Cond, v: Val, t: Ls)
    requires Testable(cond, v, t)
    ensures var q := GenBranch(ls, x, cond, v, t); q.tr == t && NoWaits(q.code)
  {
    hide NoWaits, Branch32, Then;
    forall x: Target, cond: Cond, v: Reg | cond == Always || v !in t.loads
      ensures var q := Branch32(ls, x, cond, v, t); q.tr == t && NoWaits(q.code)
    {
      Clear32(ls, x, cond, v, t);
    }
    forall a: Piece, b: Piece | NoWaits(a.code) && NoWaits(b.code)
      ensures NoWaits(Then(a, b).code) && Then(a, b).tr == b.tr
    {
      ClearThen(a, b);
    }
  }

  lemma ClearTest(ls: nat, v: Reg, scratch: Reg, id: Word, n: nat, t: Ls)
    requires v !in t.loads && scratch !in t.loads
    ensures var q := GenTest(ls, v, scratch, id, n, t, t.loads); q.tr == t && NoWaits(q.code)
  {
    assert !Clash(AddImm32(scratch, v, 0 - id), t.loads);
    hide Clash;
  }

  /** Whatever is pending when such a program is reached, and whatever its conditionals, loops, matches and maybe
      blocks: it comes out without a WAIT, and exactly the same is pending behind it. */
  lemma {:induction false} NoNeedlessWait(ls: nat, s: Stmt, g: Ctx, head: Ls, brk: bool, cont: bool)
    requires Clear(s, g.tr) && WellFormed(s, brk, cont) && (cont ==> head == g.tr)
    ensures Steady(Gen(ls, s, g, head), g.tr, g.ifLs)
    decreases s
  {
    hide GenBranch, GenOp, GenCases, NoWaits, Resolve, Clash;
    var t := g.tr;
    match s
    case Skip => ClearNothing();
    case Op(i) => ClearOp(ls, i, t);
    case FlushLoads => ClearNothing();
    case FlushStores => ClearNothing();
    case Seq(a, b) =>
      var x := Gen(ls, a, g, head);
      NoNeedlessWait(ls, a, g, head, brk, cont);
      NoNeedlessWait(ls, b, x.ctx, head, brk, cont);
      NoWaitsConcat(x.code, Gen(ls, b, x.ctx, head).code);
      JoinSame(t);
    case If(cond, v, body) =>
      ClearBranch(ls, End, Invert(cond), v, t);
      NoNeedlessWait(ls, body, Ctx(t, g.ifLs, false), head, brk, cont);
      ClearIf(GenBranch(ls, End, Invert(cond), v, t), Gen(ls, body, Ctx(t, g.ifLs, false), head), t, g.ifLs);
    case IfElse(cond, v, body, other) =>
      var p, x := GenBranch(ls, End, Invert(cond), v, t), Gen(ls, body, Ctx(t, g.ifLs, false), head);
      ClearBranch(ls, End, Invert(cond), v, t);
      NoNeedlessWait(ls, body, Ctx(t, g.ifLs, false), head, brk, cont);
      JoinSame(t);
      NoNeedlessWait(ls, other, ElseCtx(p, x), head, brk, cont);
      ClearIfElse(p, x, Gen(ls, other, ElseCtx(p, x), head), t, g.ifLs);
    case While(cond, v, body) =>
      var p := if cond == Always then Piece([], t) else GenBranch(ls, End, Invert(cond), v, t);
      ClearNothing();
      ClearBranch(ls, End, Invert(cond), v, t);
      NoNeedlessWait(ls, body, Ctx(t, g.ifLs, false), t, true, true);
      ClearWhile(ls, cond, v, p, Gen(ls, body, Ctx(t, g.ifLs, false), t), t, g.ifLs);
    case BreakIf(cond, v) => ClearBranch(ls, End, cond, v, t);
    case ContinueIf(cond, v) =>
      ClearBranch(ls, Start, cond, v, t);
      assert [] + GenBranch(ls, Start, cond, v, t).code == GenBranch(ls, Start, cond, v, t).code;
    case Match(v, scratch, cs) =>
      NoNeedlessWaitCases(ls, v, scratch, cs, true, t, IDLE, g.(pend := false), head, brk, cont);
    case Maybe(patched, body) =>
      NoNeedlessWait(ls, body, g.(pend := false), head, false, cont);
      ClearMaybe(ls, patched, Gen(ls, body, g.(pend := false), head), t, g.ifLs);
  }

  lemma ClearNothing()
    ensures NoWaits([])
  {
  }

  lemma JoinSame(t: Ls)
    ensures Join(t, t) == t && Join(t, IDLE) == t && Join(IDLE, t) == t && Join(IDLE, IDLE) == IDLE
  {
  }

  lemma ClearIf(p: Piece, x: Out, t: Ls, ifLs: Ls)
    requires p.tr == t && NoWaits(p.code) && Steady(x, t, ifLs)
    ensures Steady(OutIf(p, x), t, ifLs)
  {
    JoinSame(t);
    NoWaitsResolved(p.code, |p.code| + |x.code|, 0);
  }

  lemma ClearIfElse(p: Piece, x: Out, y: Out, t: Ls, ifLs: Ls)
    requires p.tr == t && NoWaits(p.code) && Steady(x, t, ifLs) && Steady(y, t, t)
    ensures Steady(OutIfElse(p, x, y), t, ifLs)
  {
    JoinSame(t);
    NoWaitsResolved(p.code, |p.code| + |x.code| + 1, 0);
  }

  lemma ClearWhile(ls: nat, cond: Cond, v: Val, p: Piece, x: Out, t: Ls, ifLs: Ls)
    requires p.tr == t && NoWaits(p.code) && Steady(x, t, ifLs) && Testable(cond, v, t)
    ensures Steady(OutWhile(ls, cond, v, p, x), t, ifLs)
  {
    hide GenBranch, NoWaits, Resolve;
    var q := GenBranch(ls, Start, cond, v, t);
    ClearBranch(ls, Start, cond, v, t);
    JoinSame(t);
    assert LoopWait(ls, p, x) == Piece([], t);
    assert p.code + x.code + [] + q.code == p.code + (x.code + q.code);
    NoWaitsConcat(x.code, q.code);
    NoWaitsConcat(p.code, x.code + q.code);
    NoWaitsResolved(p.code + (x.code + q.code), |p.code| + |x.code| + |q.code|, |p.code|);
  }

  lemma ClearMaybe(ls: nat, patched: bool, x: Out, t: Ls, ifLs: Ls)
    requires Steady(x, t, ifLs)
    ensures Steady(OutMaybe(ls, patched, t, x), t, ifLs)
  {
    assert x.code + [] == x.code;
  }

  lemma {:induction false} NoNeedlessWaitCases(ls: nat, v: Reg, scratch: Reg, cs: Cases, first: bool, orig: Ls, acc: Ls,
                                               g: Ctx, head: Ls, brk: bool, cont: bool)
    requires ClearCases(cs, orig) && WellFormedCases(cs, brk, cont) && v !in orig.loads && scratch !in orig.loads
    requires g.tr == orig && (acc == orig || acc == IDLE) && (cont ==> head == orig)
    ensures Steady(GenCases(ls, v, scratch, cs, first, orig, acc, g, head), orig, g.ifLs)
    decreases cs
  {
    hide Gen, GenTest, NoWaits;
    var t := orig;
    JoinSame(t);
    match cs
    case NoCase => ClearNothing();
    case Default(body) => NoNeedlessWait(ls, body, Ctx(t, g.ifLs, false), head, brk, cont);
    case Case(id, body, rest) =>
      var x := Gen(ls, body, Ctx(t, g.ifLs, false), head);
      var skip := |x.code| + if rest.NoCase? then 0 else 1;
      ClearTest(ls, v, scratch, id, 0, t);
      ClearTest(ls, v, scratch, id, skip, t);
      NoNeedlessWait(ls, body, Ctx(t, g.ifLs, false), head, brk, cont);
      NoNeedlessWaitCases(ls, v, scratch, rest, false, t, Join(acc, t), x.ctx, head, brk, cont);
      var y := GenCases(ls, v, scratch, rest, false, t, Join(acc, t), x.ctx, head);
      ClearCase(GenTest(ls, v, scratch, id, skip, t, t.loads).code, x.code, y.code, rest.NoCase?, t.loads);
      var tail := if rest.NoCase? then [] else [Emit(Branch(|y.code|, Always, 0), t.loads)] + y.code;
      var code := GenTest(ls, v, scratch, id, skip, t, t.loads).code + x.code + tail;
      assert GenCases(ls, v, scratch, cs, first, t, acc, g, head)
          == Out(code, y.ctx, Join(x.div, y.div), x.ok && y.ok);
  }

  lemma ClearCase(test: seq<Item>, body: seq<Item>, rest: seq<Item>, last: bool, loads: set<Reg>)
    requires NoWaits(test) && NoWaits(body) && NoWaits(rest)
    ensures NoWaits(test + body + if last then [] else [Emit(Branch(|rest|, Always, 0), loads)] + rest)
  {
  }
}
