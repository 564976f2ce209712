/** Maybe blocks: what leaving one out, and patching it in early or late, does to the code. */
module Maybes {
  import opened Isa
  import opened Structured
  import opened Labels
  import opened B = Builder
  import opened Control
  import opened Constructs
  import opened Driver
  import Chunks

  /** The program with every maybe block patched in. */
  function Filled(s: Stmt): Stmt {
    match s
    case Seq(a, b) => Seq(Filled(a), Filled(b))
    case If(c, v, t) => If(c, v, Filled(t))
    case IfElse(c, v, t, e) => IfElse(c, v, Filled(t), Filled(e))
    case While(c, v, body) => While(c, v, Filled(body))
    case Match(v, scratch, cs) => Match(v, scratch, FilledCases(cs))
    case Maybe(_, body) => Maybe(true, Filled(body))
    case _ => s
  }

  function FilledCases(cs: Cases): Cases {
    match cs
    case NoCase => NoCase
    case Default(body) => Default(Filled(body))
    case Case(id, body, rest) => Case(id, Filled(body), FilledCases(rest))
  }

  lemma {:induction false} FilledFormed(s: Stmt, brk: bool, cont: bool)
    requires WellFormed(s, brk, cont)
    ensures WellFormed(Filled(s), brk, cont)
    decreases s
  {
    match s
    case Seq(a, b) => FilledFormed(a, brk, cont); FilledFormed(b, brk, cont);
    case If(_, _, t) => FilledFormed(t, brk, cont);
    case IfElse(_, _, t, e) => FilledFormed(t, brk, cont); FilledFormed(e, brk, cont);
    case While(_, _, body) => FilledFormed(body, true, true);
    case Match(_, _, cs) => FilledCasesFormed(cs, brk, cont);
    case Maybe(_, body) => FilledFormed(body, false, cont);
    case _ =>
  }

  lemma {:induction false} FilledCasesFormed(cs: Cases, brk: bool, cont: bool)
    requires WellFormedCases(cs, brk, cont)
    ensures WellFormedCases(FilledCases(cs), brk, cont)
    decreases cs
  {
    match cs
    case NoCase =>
    case Default(body) => FilledFormed(body, brk, cont);
    case Case(_, body, rest) => FilledFormed(body, brk, cont); FilledCasesFormed(rest, brk, cont);
  }

  /** `a` is `b` with NOPs in some places. */
  ghost predicate Blanked(a: seq<Item>, b: seq<Item>) {
    |a| == |b| && forall i :: 0 <= i < |a| ==> a[i] == b[i] || (a[i].Emit? && a[i].i == Nop)
  }

  lemma BlankedConcat(a: seq<Item>, b: seq<Item>, c: seq<Item>, d: seq<Item>)
    requires Blanked(a, b) && Blanked(c, d)
    ensures Blanked(a + c, b + d)
  {
  }

  lemma BlankedSame(a: seq<Item>)
    ensures Blanked(a, a)
  {
  }

  lemma BlankedResolved(a: seq<Item>, b: seq<Item>, e: int, s: int)
    requires Blanked(a, b)
    ensures Blanked(Resolve(a, e, s), Resolve(b, e, s))
  {
  }

  /** The code differs from that of the filled program only by NOPs; everything else that is emitted, the
      tracker included, does not depend on what is patched in. */
  ghost predicate Blanks(x: Out, y: Out) {
    x.ctx == y.ctx && x.div == y.div && x.ok == y.ok && Blanked(x.code, y.code)
  }

  lemma {:induction false} LeftOut(ls: nat, s: Stmt, g: Ctx, head: Ls)
    ensures Blanks(Gen(ls, s, g, head), Gen(ls, Filled(s), g, head))
    decreases s, 1
  {
    hide GenBranch, GenOp, Resolve, Blanked;
    match s {
      case Seq(a, b) =>
        var x, y := Gen(ls, a, g, head), Gen(ls, Filled(a), g, head);
        LeftOut(ls, a, g, head);
        LeftOut(ls, b, x.ctx, head);
        BlankedConcat(x.code, y.code, Gen(ls, b, x.ctx, head).code, Gen(ls, Filled(b), x.ctx, head).code);
      case If(cond, v, t) =>
        var p := GenBranch(ls, End, Invert(cond), v, g.tr);
        var g1 := Ctx(p.tr, g.ifLs, false);
        var x, y := Gen(ls, t, g1, head), Gen(ls, Filled(t), g1, head);
        LeftOut(ls, t, g1, head);
        BlankedSize(x.code, y.code);
        BlankedSame(Resolve(p.code, |p.code| + |x.code|, 0));
        BlankedConcat(Resolve(p.code, |p.code| + |x.code|, 0), Resolve(p.code, |p.code| + |x.code|, 0), x.code, y.code);
      case IfElse(_, _, _, _) => LeftOutElse(ls, s, g, head);
      case While(cond, v, body) =>
        var p := if cond == Always then Piece([], g.tr) else GenBranch(ls, End, Invert(cond), v, g.tr);
        var g1 := Ctx(p.tr, g.ifLs, false);
        var x, y := Gen(ls, body, g1, p.tr), Gen(ls, Filled(body), g1, p.tr);
        LeftOut(ls, body, g1, p.tr);
        LeftOutLoop(ls, cond, v, p, x, y);
      case Match(v, scratch, cs) => LeftOutCases(ls, v, scratch, cs, true, g.tr, IDLE, g.(pend := false), head);
      case Maybe(patched, body) =>
        var x, y := Gen(ls, body, g.(pend := false), head), Gen(ls, Filled(body), g.(pend := false), head);
        LeftOut(ls, body, g.(pend := false), head);
        LeftOutMaybe(ls, patched, g.tr, x, y);
      case _ => BlankedSame(Gen(ls, s, g, head).code);
    }
  }

  lemma BlankedSize(a: seq<Item>, b: seq<Item>)
    requires Blanked(a, b)
    ensures |a| == |b|
  {
  }

  lemma LeftOutMaybe(ls: nat, patched: bool, orig: Ls, x: Out, y: Out)
    requires Blanks(x, y)
    ensures Blanks(OutMaybe(ls, patched, orig, x), OutMaybe(ls, true, orig, y))
  {
    var w := MaybeWait(ls, orig, x).code;
    BlankedSame(w);
    BlankedConcat(x.code, y.code, w, w);
  }

  lemma LeftOutLoop(ls: nat, cond: Cond, v: Val, p: Piece, x: Out, y: Out)
    requires Blanks(x, y)
    ensures Blanks(OutWhile(ls, cond, v, p, x), OutWhile(ls, cond, v, p, y))
  {
    hide GenBranch, Blanked, Resolve;
    var w := LoopWait(ls, p, x);
    var q := GenBranch(ls, Start, cond, v, w.tr);
    var a, b := p.code + x.code + w.code + q.code, p.code + y.code + w.code + q.code;
    BlankedSame(p.code);
    BlankedSame(w.code);
    BlankedSame(q.code);
    BlankedConcat(p.code, p.code, x.code, y.code);
    BlankedConcat(p.code + x.code, p.code + y.code, w.code, w.code);
    BlankedConcat(p.code + x.code + w.code, p.code + y.code + w.code, q.code, q.code);
    BlankedSize(a, b);
    BlankedResolved(a, b, |a|, |p.code|);
  }

  lemma {:induction false} LeftOutElse(ls: nat, s: Stmt, g: Ctx, head: Ls)
    requires s.IfElse?
    ensures Blanks(Gen(ls, s, g, head), Gen(ls, Filled(s), g, head))
    decreases s, 0
  {
    hide GenBranch, Resolve, Blanked;
    var p := GenBranch(ls, End, Invert(s.cond), s.val, g.tr);
    var g1 := Ctx(p.tr, g.ifLs, false);
    var x, x' := Gen(ls, s.thn, g1, head), Gen(ls, Filled(s.thn), g1, head);
    LeftOut(ls, s.thn, g1, head);
    var y, y' := Gen(ls, s.els, ElseCtx(p, x), head), Gen(ls, Filled(s.els), ElseCtx(p, x), head);
    LeftOut(ls, s.els, ElseCtx(p, x), head);
    BlankedSize(x.code, x'.code);
    BlankedSize(y.code, y'.code);
    var r := Resolve(p.code, |p.code| + |x.code| + 1, 0);
    var away := [Emit(Branch(|y.code|, Always, 0), x.ctx.tr.loads)];
    BlankedSame(r);
    BlankedSame(away);
    BlankedConcat(r, r, x.code, x'.code);
    BlankedConcat(r + x.code, r + x'.code, away, away);
    BlankedConcat(r + x.code + away, r + x'.code + away, y.code, y'.code);
  }

  lemma {:induction false} LeftOutCases(ls: nat, v: Reg, scratch: Reg, cs: Cases, first: bool, orig: Ls, acc: Ls,
                                        g: Ctx, head: Ls)
    ensures Blanks(GenCases(ls, v, scratch, cs, first, orig, acc, g, head),
                   GenCases(ls, v, scratch, FilledCases(cs), first, orig, acc, g, head))
    decreases cs, 0
  {
    hide Gen, GenTest, Blanked;
    match cs
    case NoCase => BlankedSame([]);
    case Default(body) => LeftOut(ls, body, Ctx(orig, g.ifLs, false), head);
    case Case(id, body, rest) =>
      var view := if first then g.tr.loads else orig.loads;
      var orig' := if first then GenTest(ls, v, scratch, id, 0, g.tr, view).tr else orig;
      var g1 := Ctx(orig', g.ifLs, false);
      var x, x' := Gen(ls, body, g1, head), Gen(ls, Filled(body), g1, head);
      LeftOut(ls, body, g1, head);
      var acc' := Join(acc, x.ctx.tr);
      var y := GenCases(ls, v, scratch, rest, false, orig', acc', x.ctx, head);
      var y' := GenCases(ls, v, scratch, FilledCases(rest), false, orig', acc', x.ctx, head);
      LeftOutCases(ls, v, scratch, rest, false, orig', acc', x.ctx, head);
      BlankedSize(x.code, x'.code);
      BlankedSize(y.code, y'.code);
      var test := GenTest(ls, v, scratch, id, |x.code| + if rest.NoCase? then 0 else 1, g.tr, view).code;
      var away := [Emit(Branch(|y.code|, Always, 0), x.ctx.tr.loads)];
      BlankedSame(test);
      BlankedSame(away);
      BlankedSame([]);
      BlankedConcat(test, test, x.code, x'.code);
      BlankedConcat(away, away, y.code, y'.code);
      var tail, tail' := if rest.NoCase? then [] else away + y.code, if rest.NoCase? then [] else away + y'.code;
      BlankedConcat(test + x.code, test + x'.code, tail, tail');
  }

  // ----- Reach --------------------------------------------------------------------------------------

  lemma FilledSize(ls: nat, s: Stmt, g: Ctx, head: Ls)
    ensures var x, y := Gen(ls, s, g, head), Gen(ls, Filled(s), g, head);
            |x.code| == |y.code| && x.ctx == y.ctx && x.div == y.div
  {
    LeftOut(ls, s, g, head);
  }

  /** Only branches can be out of reach. */
  lemma NoReach(code: seq<Item>, at: int, end: int, start: int)
    requires forall i :: 0 <= i < |code| ==> code[i].Emit? && !code[i].i.Branch?
    ensures InReach(code, at, end, start)
  {
  }

  lemma WaitReaches(ls: nat, need: bool, tr: Ls, at: int, end: int, start: int)
    ensures InReach(WaitIf(ls, need, tr).code, at, end, start)
  {
    NoReach(WaitIf(ls, need, tr).code, at, end, start);
  }

  lemma AwayReaches(n: nat, loads: set<Reg>, at: int, end: int, start: int)
    ensures InReach([Emit(Branch(n, Always, 0), loads)], at, end, start) <==> Near(at, at + 1 + n)
  {
    assert Place([Emit(Branch(n, Always, 0), loads)][0], at + 0, end, start) == Branch(n, Always, 0);
  }

  lemma SameReach(a: seq<Item>, b: seq<Item>, at: int, end: int, start: int)
    requires SameInstrs(a, b)
    ensures InReach(a, at, end, start) <==> InReach(b, at, end, start)
  {
    forall i | 0 <= i < |a| ensures Place(a[i], at + i, end, start) == Place(b[i], at + i, end, start) {}
  }

  /** What the builder can encode is what the finished code of the filled program needs: every branch of it
      fits its 16-bit offset. */
  lemma {:induction false} FitsExactly(ls: nat, s: Stmt, brk: bool, cont: bool, g: Ctx, head: Ls, at: int, end: int,
                                       start: int)
    requires WellFormed(s, brk, cont)
    ensures Fits(ls, s, g, head, at, end, start) <==> InReach(Gen(ls, Filled(s), g, head).code, at, end, start)
    decreases s, 1
  {
    hide Gen, Fits, InReach, Filled, WellFormed;
    match s
    case Seq(_, _) => SeqFits(ls, s, brk, cont, g, head, at, end, start);
    case If(_, _, _) => IfFits(ls, s, brk, cont, g, head, at, end, start);
    case IfElse(_, _, _, _) => ElseFits(ls, s, brk, cont, g, head, at, end, start);
    case While(_, _, _) => LoopFits(ls, s, brk, cont, g, head, at, end, start);
    case Match(_, _, _) => MatchFits(ls, s, brk, cont, g, head, at, end, start);
    case Maybe(_, _) => MaybeFits(ls, s, brk, cont, g, head, at, end, start);
    case _ => LeafFits(ls, s, brk, cont, g, head, at, end, start);
  }

  lemma {:induction false} SeqFits(ls: nat, s: Stmt, brk: bool, cont: bool, g: Ctx, head: Ls, at: int, end: int,
                                   start: int)
    requires s.Seq? && WellFormed(s, brk, cont)
    ensures Fits(ls, s, g, head, at, end, start) <==> InReach(Gen(ls, Filled(s), g, head).code, at, end, start)
    decreases s, 0
  {
    hide GenBranch, GenOp, Resolve, InReach, FitsCases, GenCases;
    var x, y := Gen(ls, s.first, g, head), Gen(ls, Filled(s.first), g, head);
    FilledSize(ls, s.first, g, head);
    FitsExactly(ls, s.first, brk, cont, g, head, at, end, start);
    FitsExactly(ls, s.second, brk, cont, x.ctx, head, at + |x.code|, end, start);
    InReachConcat(y.code, Gen(ls, Filled(s.second), y.ctx, head).code, at, end, start);
  }

  lemma {:induction false} IfFits(ls: nat, s: Stmt, brk: bool, cont: bool, g: Ctx, head: Ls, at: int, end: int,
                                  start: int)
    requires s.If? && WellFormed(s, brk, cont)
    ensures Fits(ls, s, g, head, at, end, start) <==> InReach(Gen(ls, Filled(s), g, head).code, at, end, start)
    decreases s, 0
  {
    hide GenBranch, GenOp, Resolve, InReach, FitsCases, GenCases;
    var p := GenBranch(ls, End, Invert(s.cond), s.val, g.tr);
    var g1 := Ctx(p.tr, g.ifLs, false);
    FilledSize(ls, s.thn, g1, head);
    FitsExactly(ls, s.thn, brk, cont, g1, head, at + |p.code|, end, start);
    IfReach(p, Gen(ls, Filled(s.thn), g1, head), at, end, start);
  }

  lemma {:induction false} MatchFits(ls: nat, s: Stmt, brk: bool, cont: bool, g: Ctx, head: Ls, at: int, end: int,
                                     start: int)
    requires s.Match? && WellFormed(s, brk, cont)
    ensures Fits(ls, s, g, head, at, end, start) <==> InReach(Gen(ls, Filled(s), g, head).code, at, end, start)
    decreases s, 0
  {
    hide GenBranch, GenOp, Resolve, InReach, FitsCases, GenCases;
    var g1 := g.(pend := false);
    CasesSize(ls, s.subject, s.scratch, s.cases, true, g.tr, IDLE, g1, head);
    var finish := at + |GenCases(ls, s.subject, s.scratch, s.cases, true, g.tr, IDLE, g1, head).code|;
    CasesFit(ls, s.subject, s.scratch, s.cases, brk, cont, true, g.tr, IDLE, g1, head, at, finish, end, start);
  }

  lemma {:induction false} MaybeFits(ls: nat, s: Stmt, brk: bool, cont: bool, g: Ctx, head: Ls, at: int, end: int,
                                     start: int)
    requires s.Maybe? && WellFormed(s, brk, cont)
    ensures Fits(ls, s, g, head, at, end, start) <==> InReach(Gen(ls, Filled(s), g, head).code, at, end, start)
    decreases s, 0
  {
    hide GenBranch, GenOp, Resolve, InReach, FitsCases, GenCases;
    var g1 := g.(pend := false);
    var y := Gen(ls, Filled(s.body), g1, head);
    FitsExactly(ls, s.body, false, cont, g1, head, at, end, start);
    MaybeReaches(ls, g.tr, y, at, end, start);
  }

  lemma LeafFits(ls: nat, s: Stmt, brk: bool, cont: bool, g: Ctx, head: Ls, at: int, end: int, start: int)
    requires (s.Skip? || s.FlushLoads? || s.FlushStores? || s.BreakIf? || s.ContinueIf? || s.Op?)
    requires WellFormed(s, brk, cont)
    ensures Fits(ls, s, g, head, at, end, start) <==> InReach(Gen(ls, Filled(s), g, head).code, at, end, start)
  {
    hide GenBranch, GenOp, InReach, Again;
    match s
    case Op(i) => OpReaches(ls, i, g.tr, at, end, start);
    case FlushLoads => WaitReaches(ls, g.tr.loads != {}, g.tr, at, end, start);
    case FlushStores => WaitReaches(ls, g.tr.stores, g.tr, at, end, start);
    case Skip => NoReach([], at, end, start);
    case BreakIf(_, _) =>
    case ContinueIf(_, _) => JumpIs(ls, s, g, head);
  }

  lemma IfReach(p: Piece, x: Out, at: int, end: int, start: int)
    ensures InReach(OutIf(p, x).code, at, end, start)
       <==> InReach(p.code, at, at + |p.code| + |x.code|, at) && InReach(x.code, at + |p.code|, end, start)
  {
    hide InReach, Resolve;
    InReachResolved(p.code, |p.code| + |x.code|, 0, at, end, start);
    InReachConcat(Resolve(p.code, |p.code| + |x.code|, 0), x.code, at, end, start);
  }

  lemma MaybeReaches(ls: nat, orig: Ls, x: Out, at: int, end: int, start: int)
    ensures InReach(OutMaybe(ls, true, orig, x).code, at, end, start) <==> InReach(x.code, at, end, start)
  {
    hide InReach;
    InReachConcat(x.code, MaybeWait(ls, orig, x).code, at, end, start);
    WaitReaches(ls, x.ctx.tr.loads - orig.loads != {} || (x.ctx.tr.stores && !orig.stores), x.ctx.tr, at + |x.code|,
                end, start);
  }

  lemma ElseReach(p: Piece, x: Out, y: Out, at: int, end: int, start: int)
    ensures var mid := at + |p.code| + |x.code|;
            var all := && InReach(p.code, at, mid + 1, at) && InReach(x.code, at + |p.code|, end, start)
                       && Near(mid, mid + 1 + |y.code|) && InReach(y.code, mid + 1, end, start);
            InReach(OutIfElse(p, x, y).code, at, end, start) <==> all
  {
    hide InReach, Resolve, OutIfElse;
    var mid := at + |p.code| + |x.code|;
    var r, away := Resolve(p.code, |p.code| + |x.code| + 1, 0), [Emit(Branch(|y.code|, Always, 0), x.ctx.tr.loads)];
    ElseParts(p, x, y, 0);
    InReachResolved(p.code, |p.code| + |x.code| + 1, 0, at, end, start);
    InReachConcat(r, x.code, at, end, start);
    InReachConcat(away, y.code, mid, end, start);
    AwayReaches(|y.code|, x.ctx.tr.loads, mid, end, start);
    InReachConcat(r + x.code, away + y.code, at, end, start);
  }

  lemma OpReaches(ls: nat, i: Instr, tr: Ls, at: int, end: int, start: int)
    requires Plain(i)
    ensures InReach(GenOp(ls, i, tr).code, at, end, start)
  {
    NoReach(GenOp(ls, i, tr).code, at, end, start);
  }

  lemma {:induction false} ElseFits(ls: nat, s: Stmt, brk: bool, cont: bool, g: Ctx, head: Ls, at: int, end: int,
                                    start: int)
    requires s.IfElse? && WellFormed(s, brk, cont)
    ensures Fits(ls, s, g, head, at, end, start) <==> InReach(Gen(ls, Filled(s), g, head).code, at, end, start)
    decreases s, 0
  {
    hide GenBranch, InReach, OutIfElse, Gen, Fits, Filled, ElseCtx;
    ElseUnfolds(ls, s, brk, cont, g, head, at, end, start);
    var p := GenBranch(ls, End, Invert(s.cond), s.val, g.tr);
    var g1 := Ctx(p.tr, g.ifLs, false);
    var x := Gen(ls, Filled(s.thn), g1, head);
    FilledSize(ls, s.thn, g1, head);
    SameElse(p, Gen(ls, s.thn, g1, head), x);
    FitsExactly(ls, s.thn, brk, cont, g1, head, at + |p.code|, end, start);
    var y := Gen(ls, Filled(s.els), ElseCtx(p, x), head);
    FilledSize(ls, s.els, ElseCtx(p, x), head);
    FitsExactly(ls, s.els, brk, cont, ElseCtx(p, x), head, at + |p.code| + |x.code| + 1, end, start);
    ElseReach(p, x, y, at, end, start);
  }

  lemma SameElse(p: Piece, x: Out, y: Out)
    requires x.ctx == y.ctx
    ensures ElseCtx(p, x) == ElseCtx(p, y)
  {
  }

  lemma ElseUnfolds(ls: nat, s: Stmt, brk: bool, cont: bool, g: Ctx, head: Ls, at: int, end: int, start: int)
    requires s.IfElse? && WellFormed(s, brk, cont)
    ensures var p := GenBranch(ls, End, Invert(s.cond), s.val, g.tr);
            var g1 := Ctx(p.tr, g.ifLs, false);
            var x, x' := Gen(ls, s.thn, g1, head), Gen(ls, Filled(s.thn), g1, head);
            var y, y' := Gen(ls, s.els, ElseCtx(p, x), head), Gen(ls, Filled(s.els), ElseCtx(p, x'), head);
            var mid := at + |p.code| + |x.code|;
            && WellFormed(s.thn, brk, cont) && WellFormed(s.els, brk, cont)
            && Gen(ls, Filled(s), g, head) == OutIfElse(p, x', y')
            && Fits(ls, s, g, head, at, end, start)
               == (InReach(p.code, at, mid + 1, at) && Fits(ls, s.thn, g1, head, at + |p.code|, end, start)
                   && Near(mid, mid + 1 + |y.code|) && Fits(ls, s.els, ElseCtx(p, x), head, mid + 1, end, start))
  {
    hide GenBranch, InReach, OutIfElse, ElseCtx;
  }

  lemma {:induction false} LoopFits(ls: nat, s: Stmt, brk: bool, cont: bool, g: Ctx, head: Ls, at: int, end: int,
                                    start: int)
    requires s.While? && WellFormed(s, brk, cont)
    ensures Fits(ls, s, g, head, at, end, start) <==> InReach(Gen(ls, Filled(s), g, head).code, at, end, start)
    decreases s, 0
  {
    hide GenBranch, Resolve, InReach, Again, OutWhile, Entry, Gen, Fits, Filled;
    var p := Entry(ls, s.cond, s.val, g.tr);
    var g1 := Ctx(p.tr, g.ifLs, false);
    var x := Gen(ls, Filled(s.body), g1, p.tr);
    var q := Again(ls, s.cond, s.val, p.tr, x.ctx.tr);
    var top := at + |p.code|;
    var inner := p.code + x.code + q.code;
    LoopIs(ls, s, brk, cont, g, head, at, end, start);
    FilledSize(ls, s.body, g1, p.tr);
    FitsExactly(ls, s.body, true, true, g1, p.tr, top, top + |x.code| + |q.code|, top);
    WhileParts(ls, s.cond, s.val, p, x);
    InReachResolved(inner, |inner|, |p.code|, at, end, start);
    InReachConcat(p.code, x.code, at, at + |inner|, top);
    InReachConcat(p.code + x.code, q.code, at, at + |inner|, top);
  }

  lemma LoopIs(ls: nat, s: Stmt, brk: bool, cont: bool, g: Ctx, head: Ls, at: int, end: int, start: int)
    requires s.While? && WellFormed(s, brk, cont)
    ensures var p := Entry(ls, s.cond, s.val, g.tr);
            var g1 := Ctx(p.tr, g.ifLs, false);
            var x := Gen(ls, s.body, g1, p.tr);
            var q := Again(ls, s.cond, s.val, p.tr, x.ctx.tr);
            var top := at + |p.code|;
            var stop := top + |x.code| + |q.code|;
            && WellFormed(s.body, true, true)
            && Gen(ls, Filled(s), g, head) == OutWhile(ls, s.cond, s.val, p, Gen(ls, Filled(s.body), g1, p.tr))
            && Fits(ls, s, g, head, at, end, start)
               == (InReach(p.code, at, stop, top) && Fits(ls, s.body, g1, p.tr, top, stop, top)
                   && InReach(q.code, top + |x.code|, stop, top))
  {
    hide GenBranch, OutWhile, InReach, Again;
  }

  lemma {:induction false} CasesFit(ls: nat, v: Reg, scratch: Reg, cs: Cases, brk: bool, cont: bool, first: bool,
                                    orig: Ls, acc: Ls, g: Ctx, head: Ls, at: int, finish: int, end: int, start: int)
    requires WellFormedCases(cs, brk, cont) && v != scratch
    requires finish == at + |GenCases(ls, v, scratch, cs, first, orig, acc, g, head).code|
    ensures FitsCases(ls, v, scratch, cs, first, orig, acc, g, head, at, finish, end, start)
       <==> InReach(GenCases(ls, v, scratch, FilledCases(cs), first, orig, acc, g, head).code, at, end, start)
    decreases cs, 1
  {
    hide Gen, GenTest, InReach, Compare, Resolve, SameInstrs, Fits;
    match cs
    case NoCase => NoReach([], at, end, start);
    case Default(body) => FitsExactly(ls, body, brk, cont, Ctx(orig, g.ifLs, false), head, at, end, start);
    case Case(_, _, _) => CaseFits(ls, v, scratch, cs, brk, cont, first, orig, acc, g, head, at, finish, end, start);
  }

  lemma {:induction false} CaseFits(ls: nat, v: Reg, scratch: Reg, cs: Cases, brk: bool, cont: bool, first: bool,
                                    orig: Ls, acc: Ls, g: Ctx, head: Ls, at: int, finish: int, end: int, start: int)
    requires cs.Case? && WellFormedCases(cs, brk, cont) && v != scratch
    requires finish == at + |GenCases(ls, v, scratch, cs, first, orig, acc, g, head).code|
    ensures FitsCases(ls, v, scratch, cs, first, orig, acc, g, head, at, finish, end, start)
       <==> InReach(GenCases(ls, v, scratch, FilledCases(cs), first, orig, acc, g, head).code, at, end, start)
    decreases cs, 0
  {
    hide Gen, GenTest, GenCases, InReach, Compare, Resolve, SameInstrs, Fits, FitsCases, Filled, FilledCases,
         WellFormed, WellFormedCases;
    CaseIs(cs, brk, cont);
    var p := Compare(ls, v, scratch, cs.id, g.tr);
    var orig' := if first then p.tr else orig;
    var g1 := Ctx(orig', g.ifLs, false);
    var x := Gen(ls, Filled(cs.body), g1, head);
    FilledSize(ls, cs.body, g1, head);
    var acc' := Join(acc, x.ctx.tr);
    var y := GenCases(ls, v, scratch, FilledCases(cs.rest), false, orig', acc', x.ctx, head);
    CasesSize(ls, v, scratch, cs.rest, false, orig', acc', x.ctx, head);
    var more := if cs.rest.NoCase? then 0 else 1;
    var view := if first then g.tr.loads else orig.loads;
    var test := GenTest(ls, v, scratch, cs.id, |x.code| + more, g.tr, view).code;
    var mid := at + |p.code| + |x.code|;
    CaseCode(ls, v, scratch, cs.id, cs.body, cs.rest, first, orig, acc, g, head, start - at);
    CaseCode(ls, v, scratch, cs.id, Filled(cs.body), FilledCases(cs.rest), first, orig, acc, g, head, start - at);
    CaseAsks(ls, v, scratch, cs.id, cs.body, cs.rest, first, orig, acc, g, head, at, finish, end, start);
    FitsExactly(ls, cs.body, brk, cont, g1, head, at + |p.code|, end, start);
    CasesFit(ls, v, scratch, cs.rest, brk, cont, false, orig', acc', x.ctx, head, mid + more, finish, end, start);
    NoReach([], mid, end, start);
    CaseReach(p.code, test, x.code, y.code, !cs.rest.NoCase?, x.ctx.tr.loads, at, end, start);
  }

  lemma CaseIs(cs: Cases, brk: bool, cont: bool)
    requires cs.Case?
    ensures WellFormedCases(cs, brk, cont) ==> (WellFormed(cs.body, brk, cont) && WellFormedCases(cs.rest, brk, cont))
    ensures cs == Case(cs.id, cs.body, cs.rest) && FilledCases(cs) == Case(cs.id, Filled(cs.body), FilledCases(cs.rest))
    ensures FilledCases(cs.rest).NoCase? == cs.rest.NoCase?
  {
  }

  /** The code of a case, part by part. */
  lemma CaseCode(ls: nat, v: Reg, scratch: Reg, id: Word, body: Stmt, rest: Cases, first: bool, orig: Ls, acc: Ls,
                 g: Ctx, head: Ls, s: int)
    requires v != scratch
    ensures var p := Compare(ls, v, scratch, id, g.tr);
            var orig' := if first then p.tr else orig;
            var x := Gen(ls, body, Ctx(orig', g.ifLs, false), head);
            var y := GenCases(ls, v, scratch, rest, false, orig', Join(acc, x.ctx.tr), x.ctx, head);
            var tail := if rest.NoCase? then [] else [Emit(Branch(|y.code|, Always, 0), x.ctx.tr.loads)] + y.code;
            var k := |x.code| + if rest.NoCase? then 0 else 1;
            var test := GenTest(ls, v, scratch, id, k, g.tr, if first then g.tr.loads else orig.loads).code;
            && GenCases(ls, v, scratch, Case(id, body, rest), first, orig, acc, g, head).code == test + x.code + tail
            && SameInstrs(Resolve(p.code, |p.code| + k, s), test) && |test| == |p.code|
            && (rest.NoCase? ==> y.code == [])
  {
    hide Gen, GenTest, Compare, Resolve, SameInstrs;
    var view := if first then g.tr.loads else orig.loads;
    var p := Compare(ls, v, scratch, id, g.tr);
    var x := Gen(ls, body, Ctx(if first then p.tr else orig, g.ifLs, false), head);
    var k := |x.code| + if rest.NoCase? then 0 else 1;
    TestIs(ls, v, scratch, id, 0, g.tr, view, 0);
    TestIs(ls, v, scratch, id, k, g.tr, view, s);
    TestSize(ls, v, scratch, id, k, g.tr, view);
  }

  /** What a case asks of its branches. */
  lemma CaseAsks(ls: nat, v: Reg, scratch: Reg, id: Word, body: Stmt, rest: Cases, first: bool, orig: Ls, acc: Ls,
                 g: Ctx, head: Ls, at: int, finish: int, end: int, start: int)
    ensures var p := Compare(ls, v, scratch, id, g.tr);
            var orig' := if first then p.tr else orig;
            var g1 := Ctx(orig', g.ifLs, false);
            var x := Gen(ls, body, g1, head);
            var more := if rest.NoCase? then 0 else 1;
            var mid := at + |p.code| + |x.code|;
            var all := && InReach(p.code, at, mid + more, start) && Fits(ls, body, g1, head, at + |p.code|, end, start)
                       && (!rest.NoCase? ==> Near(mid, finish))
                       && FitsCases(ls, v, scratch, rest, false, orig', Join(acc, x.ctx.tr), x.ctx, head,
                                    mid + more, finish, end, start);
            FitsCases(ls, v, scratch, Case(id, body, rest), first, orig, acc, g, head, at, finish, end, start) == all
  {
    hide Gen, InReach, Compare, Fits;
  }

  /** A case, and what is behind it. */
  lemma CaseReach(p: seq<Item>, test: seq<Item>, x: seq<Item>, y: seq<Item>, more: bool, loads: set<Reg>, at: int,
                  end: int, start: int)
    requires SameInstrs(Resolve(p, |p| + |x| + (if more then 1 else 0), start - at), test)
    ensures var mid := at + |p| + |x|;
            var tail := if more then [Emit(Branch(|y|, Always, 0), loads)] + y else [];
            var all := && InReach(p, at, mid + (if more then 1 else 0), start) && InReach(x, at + |p|, end, start)
                       && (more ==> Near(mid, mid + 1 + |y|) && InReach(y, mid + 1, end, start));
            InReach(test + x + tail, at, end, start) <==> all
  {
    hide InReach, Resolve, SameInstrs;
    SameSize(Resolve(p, |p| + |x| + (if more then 1 else 0), start - at), test);
    var mid, n := at + |p| + |x|, |p| + |x| + if more then 1 else 0;
    InReachResolved(p, n, start - at, at, end, start);
    SameReach(Resolve(p, n, start - at), test, at, end, start);
    InReachConcat(test, x, at, end, start);
    var tail := if more then [Emit(Branch(|y|, Always, 0), loads)] + y else [];
    TailReach(y, loads, mid, end, start);
    NoReach([], mid, end, start);
    InReachConcat(test + x, tail, at, end, start);
  }

  lemma SameSize(a: seq<Item>, b: seq<Item>)
    requires SameInstrs(a, b)
    ensures |a| == |b|
  {
  }

  lemma TailReach(y: seq<Item>, loads: set<Reg>, mid: int, end: int, start: int)
    ensures InReach([Emit(Branch(|y|, Always, 0), loads)] + y, mid, end, start)
       <==> Near(mid, mid + 1 + |y|) && InReach(y, mid + 1, end, start)
  {
    hide InReach;
    AwayReaches(|y|, loads, mid, end, start);
    InReachConcat([Emit(Branch(|y|, Always, 0), loads)], y, mid, end, start);
  }

  lemma CasesSize(ls: nat, v: Reg, scratch: Reg, cs: Cases, first: bool, orig: Ls, acc: Ls, g: Ctx, head: Ls)
    ensures |GenCases(ls, v, scratch, cs, first, orig, acc, g, head).code|
         == |GenCases(ls, v, scratch, FilledCases(cs), first, orig, acc, g, head).code|
  {
    LeftOutCases(ls, v, scratch, cs, first, orig, acc, g, head);
  }

  // ----- Early and late -----------------------------------------------------------------------------

  /** Patching commutes with flushing: filling in a maybe block after its outermost block has been copied
      behind `before` gives what filling it in first would have given. The block may not hold a LOAD_IP,
      whose address is only known once it is copied. */
  lemma EarlyOrLate(before: seq<Instr>, block: seq<Instr>, ips: seq<nat>, pos: nat, body: seq<Instr>, gpu: nat, at: nat)
    requires pos + |body| <= |block| && forall k :: 0 <= k < |ips| ==> !(pos < ips[k] <= pos + |body|)
    ensures Chunks.Overwrite(before + WithIps(block, ips, gpu, at), |before| + pos, body)
         == before + WithIps(Chunks.Overwrite(block, pos, body), ips, gpu, at)
  {
    var early, late := WithIps(Chunks.Overwrite(block, pos, body), ips, gpu,
                               at), Chunks.Overwrite(WithIps(block, ips, gpu, at), pos, body);
    forall i | 0 <= i < |block| ensures early[i] == late[i] {
      if i < pos || i >= pos + |body| { assert Chunks.Overwrite(block, pos, body)[i] == block[i]; }
    }
    Chunks.OverwriteConcat(before, WithIps(block, ips, gpu, at), pos, body);
  }
}
