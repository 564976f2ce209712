/** Which programs the builder accepts: what its assertions ask for, read off the text. */
module Accepts {
  import opened Isa
  import opened Structured
  import opened B = Builder
  import opened Labels
  import Chunks
  import Driver
  import Late
  import Linking
  import Maybes
  import Preservation
  import Program
  import Tidy

  /** The statement may end with an `if` that could still be given an `else`. */
  predicate Open(s: Stmt) {
    match s
    case If(_, _, _) => true
    case Seq(a, b) => Open(b) || (Silent(b) && Open(a))
    case _ => false
  }

  /** The statement may come out as nothing. */
  predicate Silent(s: Stmt) {
    s.Skip? || s.FlushLoads? || s.FlushStores? || (s.Seq? && Silent(s.first) && Silent(s.second))
  }

  /** No `if` is left open where its enclosing `if`, maybe block or match ends. */
  predicate Settled(s: Stmt) {
    match s
    case Seq(a, b) => Settled(a) && Settled(b)
    case If(_, _, t) => Settled(t) && !Open(t)
    case IfElse(_, _, t, e) => Settled(t) && !Open(t) && Settled(e)
    case While(_, _, body) => Settled(body)
    case Match(_, _, cs) => SettledCases(cs)
    case Maybe(_, body) => Settled(body) && !Open(body)
    case _ => true
  }

  predicate SettledCases(cs: Cases) {
    match cs
    case NoCase => true
    case Default(body) => Settled(body) && !Open(body)
    case Case(_, body, rest) => Settled(body) && !Open(body) && SettledCases(rest)
  }

  /** The builder's assertions hold for such a program, and an `if` is pending behind it only if its text ends in
      one. */
  lemma {:induction false} SettledOk(ls: nat, s: Stmt, g: Ctx, head: Ls)
    requires Settled(s)
    ensures var o := Gen(ls, s, g, head); o.ok && (o.ctx.pend ==> Open(s) || (Silent(s) && g.pend))
    decreases s
  {
    hide GenBranch, GenOp, WaitIf, LoopWait, MaybeWait;
    match s
    case Seq(a, b) =>
      SettledOk(ls, a, g, head);
      SettledOk(ls, b, Gen(ls, a, g, head).ctx, head);
    case If(cond, v, t) =>
      SettledOk(ls, t, Ctx(GenBranch(ls, End, Invert(cond), v, g.tr).tr, g.ifLs, false), head);
    case IfElse(cond, v, t, e) =>
      var p := GenBranch(ls, End, Invert(cond), v, g.tr);
      var x := Gen(ls, t, Ctx(p.tr, g.ifLs, false), head);
      SettledOk(ls, t, Ctx(p.tr, g.ifLs, false), head);
      SettledOk(ls, e, ElseCtx(p, x), head);
    case While(cond, v, body) =>
      var p := if cond == Always then Piece([], g.tr) else GenBranch(ls, End, Invert(cond), v, g.tr);
      SettledOk(ls, body, Ctx(p.tr, g.ifLs, false), p.tr);
    case Match(v, scratch, cs) => SettledCasesOk(ls, v, scratch, cs, true, g.tr, IDLE, g.(pend := false), head);
    case Maybe(_, body) => SettledOk(ls, body, g.(pend := false), head);
    case _ =>
  }

  lemma {:induction false} SettledCasesOk(ls: nat, v: Reg, scratch: Reg, cs: Cases, first: bool, orig: Ls, acc: Ls,
                                          g: Ctx, head: Ls)
    requires SettledCases(cs) && !g.pend
    ensures var o := GenCases(ls, v, scratch, cs, first, orig, acc, g, head); o.ok && !o.ctx.pend
    decreases cs
  {
    hide Gen, GenTest;
    match cs
    case NoCase =>
    case Default(body) => SettledOk(ls, body, Ctx(orig, g.ifLs, false), head);
    case Case(id, body, rest) =>
      var q := GenTest(ls, v, scratch, id, 0, g.tr, if first then g.tr.loads else orig.loads);
      var orig' := if first then q.tr else orig;
      var x := Gen(ls, body, Ctx(orig', g.ifLs, false), head);
      SettledOk(ls, body, Ctx(orig', g.ifLs, false), head);
      SettledCasesOk(ls, v, scratch, rest, false, orig', Join(acc, x.ctx.tr), x.ctx, head);
  }

  /** Branches inside code of up to 2^15 - 1 instructions can be encoded. */
  lemma ShortInReach(code: seq<Item>)
    requires |code| <= INT16_MAX && Linking.Closed(Preservation.Finish(code))
    ensures InReach(code, 0, |code|, 0)
  {
    forall i | 0 <= i < |code| ensures Reaches(Place(code[i], 0 + i, |code|, 0)) {
      var p := Preservation.Finish(code);
      if code[i].Emit? && code[i].i.Branch? { assert p[i] == code[i].i && 0 <= i + 1 + p[i].rel <= |p|; }
    }
  }

  /** The builder takes every well formed program that is settled and comes out as no more than 2^15 - 1 instructions,
      if its chunks are large enough for it. */
  lemma Accepted(b: Builder, s: Stmt, g: Ctx, top: Reg)
    requires WellFormed(s, false, false) && Settled(s) && Tidy.UsesBelow(s, top)
    requires var n := |Gen(b.lsSlot, s, g, IDLE).code|; n <= INT16_MAX && (b.out.allocates ==> n + 1 <= b.out.largest)
    ensures Program.Compilable(b, s, g)
  {
    hide Gen, WellFormed, Driver.Fits, Tidy.UsesBelow, InReach, Linking.Closed;
    var code := Gen(b.lsSlot, Maybes.Filled(s), g, IDLE).code;
    SettledOk(b.lsSlot, s, g, IDLE);
    Maybes.FilledSize(b.lsSlot, s, g, IDLE);
    Maybes.FilledFormed(s, false, false);
    Late.FilledBelow(s, top);
    Tidy.FinishedTidy(b.lsSlot, Maybes.Filled(s), g, IDLE, top);
    ShortInReach(code);
    Maybes.FitsExactly(b.lsSlot, s, false, false, g, IDLE, 0, |code|, 0);
  }
}
