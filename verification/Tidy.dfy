/** What the emitted code never does: branch out of itself, or touch registers of the builder's own. */
module Tidy {
  import opened Isa
  import opened Structured
  import opened Preservation
  import Linking

  // ----- Registers a program uses -----------------------------------------------------------------------

  predicate ValBelow(cond: Cond, v: Val, top: Reg) {
    cond == Always || v.reg + (if v.wide then 1 else 0) < top
  }

  /** All registers the program names are below `top`. */
  predicate UsesBelow(s: Stmt, top: Reg) {
    match s
    case Op(i) => Linking.Below(i, top)
    case Seq(a, b) => UsesBelow(a, top) && UsesBelow(b, top)
    case If(c, v, t) => ValBelow(c, v, top) && UsesBelow(t, top)
    case IfElse(c, v, t, e) => ValBelow(c, v, top) && UsesBelow(t, top) && UsesBelow(e, top)
    case While(c, v, body) => ValBelow(c, v, top) && UsesBelow(body, top)
    case BreakIf(c, v) => ValBelow(c, v, top)
    case ContinueIf(c, v) => ValBelow(c, v, top)
    case Match(v, scratch, cs) => v < top && scratch < top && CasesBelow(cs, top)
    case Maybe(_, body) => UsesBelow(body, top)
    case _ => true
  }

  predicate CasesBelow(cs: Cases, top: Reg) {
    match cs
    case NoCase => true
    case Default(body) => UsesBelow(body, top)
    case Case(_, body, rest) => UsesBelow(body, top) && CasesBelow(rest, top)
  }

  // ----- Tidy code ----------------------------------------------------------------------------------------

  /** An item at position `i` of `n`. */
  ghost predicate Neat(x: Item, i: int, n: int, top: Reg) {
    match x
    case Emit(ins, _) => Linking.Below(ins, top) && (ins.Branch? ==> 0 <= i + 1 + ins.rel <= n)
    case ToEnd(c, v, _) => c == Always || v < top
    case ToStart(c, v, _) => c == Always || v < top
  }

  /** Branches stay inside, registers stay below. */
  ghost predicate Tidy(code: seq<Item>, top: Reg) {
    forall i :: 0 <= i < |code| ==> Neat(code[i], i, |code|, top)
  }

  lemma TidyConcat(a: seq<Item>, b: seq<Item>, top: Reg)
    requires Tidy(a, top) && Tidy(b, top)
    ensures Tidy(a + b, top)
  {
    var c := a + b;
    forall i | 0 <= i < |c| ensures Neat(c[i], i, |c|, top) {
      if i < |a| { assert Neat(a[i], i, |a|, top); } else { assert Neat(b[i - |a|], i - |a|, |b|, top); }
    }
  }

  /** Code whose end and start are `e` and `s`, as part of a longer stretch. */
  lemma TidyResolved(code: seq<Item>, e: int, s: int, rest: seq<Item>, top: Reg)
    requires Tidy(code, top) && Tidy(rest, top) && 0 <= e <= |code| + |rest| && 0 <= s <= |code|
    ensures Tidy(Resolve(code, e, s) + rest, top)
  {
    var c := Resolve(code, e, s) + rest;
    forall i | 0 <= i < |c| ensures Neat(c[i], i, |c|, top) {
      if i < |code| {
        assert Neat(code[i], i, |code|, top);
        assert c[i] == Emit(Place(code[i], i, e, s), code[i].loads);
      } else {
        assert Neat(rest[i - |code|], i - |code|, |rest|, top);
      }
    }
  }

  lemma TidyOne(x: Item, top: Reg)
    requires Neat(x, 0, 1, top)
    ensures Tidy([x], top)
  {
  }

  lemma TidyWait(ls: nat, need: bool, tr: Ls, top: Reg)
    ensures Tidy(WaitIf(ls, need, tr).code, top)
  {
  }

  lemma TidyBranch32(ls: nat, t: Target, cond: Cond, v: Reg, tr: Ls, rest: seq<Item>, top: Reg)
    requires cond == Always || v < top
    requires Tidy(rest, top) && (t.Ahead? ==> t.n <= |rest|)
    ensures Tidy(Branch32(ls, t, cond, v, tr).code + rest, top)
  {
    var w := WaitIf(ls, cond != Always && v in tr.loads, tr);
    var r := if cond == Always then 0 else v;
    var x := BranchItem(t, cond, r, w.tr.loads);
    var two := [x] + rest;
    assert t.Ahead? ==> Linking.Below(Branch(t.n, cond, r), top);
    forall i | 0 <= i < |two| ensures Neat(two[i], i, |two|, top) {
      if i > 0 { assert Neat(rest[i - 1], i - 1, |rest|, top); }
    }
    TidyWait(ls, cond != Always && v in tr.loads, tr, top);
    TidyConcat(w.code, two, top);
    assert Branch32(ls, t, cond, v, tr).code + rest == w.code + two;
  }

  lemma TidyLast(ls: nat, t: Target, cond: Cond, v: Reg, tr: Ls, top: Reg)
    requires (cond == Always || v < top) && !t.Ahead?
    ensures Tidy(Branch32(ls, t, cond, v, tr).code, top)
  {
    TidyBranch32(ls, t, cond, v, tr, [], top);
    assert Branch32(ls, t, cond, v, tr).code + [] == Branch32(ls, t, cond, v, tr).code;
  }

  lemma TidyBranch64(ls: nat, t: Target, cond: Cond, v: Reg, tr: Ls, top: Reg)
    requires (cond == Always || v + 1 < top) && !t.Ahead?
    ensures Tidy(Branch64(ls, t, cond, v, tr).code, top)
  {
    hide Branch32, Tidy, Tested;
    var lo, hi := v, v + 1;
    match cond
    case Always => TidyLast(ls, t, Always, 0, tr, top);
    case Less => TidyLast(ls, t, Less, hi, tr, top);
    case LEqual =>
      var t1 := Tested(ls, Less, hi, tr);
      var t2 := Tested(ls, NEqual, hi, t1);
      var z := Branch32(ls, t, Equal, lo, t2);
      TidyLast(ls, t, Equal, lo, t2, top);
      TidyBranch32(ls, Ahead(|z.code|), NEqual, hi, t1, z.code, top);
      TidyBranch32(ls, t, Less, hi, tr, Over(ls, NEqual, hi, t1, z).code, top);
    case Greater =>
      var t1 := Tested(ls, Less, hi, tr);
      var t2 := Tested(ls, NEqual, hi, t1);
      var y, z := Branch32(ls, t, NEqual, hi, t1), Branch32(ls, t, NEqual, lo, t2);
      TidyLast(ls, t, NEqual, lo, t2, top);
      TidyBranch32(ls, t, NEqual, hi, t1, z.code, top);
      TidyBranch32(ls, Ahead(|Then(y, z).code|), Less, hi, tr, Then(y, z).code, top);
    case GEqual =>
      var z := Branch32(ls, t, Always, 0, Tested(ls, Less, hi, tr));
      TidyLast(ls, t, Always, 0, Tested(ls, Less, hi, tr), top);
      TidyBranch32(ls, Ahead(|z.code|), Less, hi, tr, z.code, top);
    case NEqual =>
      var z := Branch32(ls, t, NEqual, hi, Tested(ls, NEqual, lo, tr));
      TidyLast(ls, t, NEqual, hi, Tested(ls, NEqual, lo, tr), top);
      TidyBranch32(ls, t, NEqual, lo, tr, z.code, top);
    case Equal =>
      var z := Branch32(ls, t, Equal, hi, Tested(ls, NEqual, lo, tr));
      TidyLast(ls, t, Equal, hi, Tested(ls, NEqual, lo, tr), top);
      TidyBranch32(ls, Ahead(|z.code|), NEqual, lo, tr, z.code, top);
  }

  lemma TidyBranch(ls: nat, t: Target, cond: Cond, v: Val, tr: Ls, top: Reg)
    requires ValBelow(cond, v, top) && !t.Ahead?
    ensures Tidy(GenBranch(ls, t, cond, v, tr).code, top)
  {
    hide Tidy, Branch32, Branch64;
    if v.wide { TidyBranch64(ls, t, cond, v.reg, tr, top); } else { TidyLast(ls, t, cond, v.reg, tr, top); }
  }

  lemma TidyOp(ls: nat, i: Instr, tr: Ls, top: Reg)
    requires Plain(i) && Linking.Below(i, top)
    ensures Tidy(GenOp(ls, i, tr).code, top)
  {
    var w := WaitIf(ls, Clash(i, tr.loads), tr);
    TidyWait(ls, Clash(i, tr.loads), tr, top);
    TidyOne(Emit(i, w.tr.loads), top);
    TidyConcat(w.code, [Emit(i, w.tr.loads)], top);
  }

  lemma TidyTest(ls: nat, v: Reg, scratch: Reg, id: Word, n: nat, tr: Ls, view: set<Reg>, rest: seq<Item>, top: Reg)
    requires v < top && scratch < top && Tidy(rest, top) && n <= |rest|
    ensures Tidy(GenTest(ls, v, scratch, id, n, tr, view).code + rest, top)
  {
    var sub := AddImm32(scratch, v, 0 - id);
    var need := if id == 0 then v in tr.loads else Clash(sub, tr.loads);
    var wait := if need then [Emit(Wait({ls}), view)] else [];
    var seen := if need then {} else view;
    var last := [Emit(Branch(n, NEqual, if id == 0 then v else scratch), seen)] + rest;
    forall i | 0 <= i < |last| ensures Neat(last[i], i, |last|, top) {
      if i > 0 { assert Neat(rest[i - 1], i - 1, |rest|, top); }
    }
    assert Tidy(wait, top);
    if id == 0 {
      TidyConcat(wait, last, top);
      assert GenTest(ls, v, scratch, id, n, tr, view).code + rest == wait + last;
    } else {
      TidyOne(Emit(sub, seen), top);
      TidyConcat([Emit(sub, seen)], last, top);
      TidyConcat(wait, [Emit(sub, seen)] + last, top);
      assert GenTest(ls, v, scratch, id, n, tr, view).code + rest == wait + ([Emit(sub, seen)] + last);
    }
  }

  lemma TidyAway(loads: set<Reg>, rest: seq<Item>, top: Reg)
    requires Tidy(rest, top)
    ensures Tidy([Emit(Branch(|rest|, Always, 0), loads)] + rest, top)
  {
    var c := [Emit(Branch(|rest|, Always, 0), loads)] + rest;
    forall i | 0 <= i < |c| ensures Neat(c[i], i, |c|, top) {
      if i > 0 { assert Neat(rest[i - 1], i - 1, |rest|, top); }
    }
  }

  lemma InvertBelow(c: Cond, v: Val, top: Reg)
    requires ValBelow(c, v, top)
    ensures ValBelow(Invert(c), v, top)
  {
  }

  // ----- All code is tidy -----------------------------------------------------------------------------------

  lemma {:induction false} CodeTidy(ls: nat, s: Stmt, brk: bool, cont: bool, g: Ctx, head: Ls, top: Reg)
    requires WellFormed(s, brk, cont) && UsesBelow(s, top)
    ensures Tidy(Gen(ls, s, g, head).code, top)
    decreases s, 1
  {
    hide Tidy, GenBranch, GenOp, GenCases, Resolve, Neat;
    match s {
      case Op(i) => TidyOp(ls, i, g.tr, top);
      case FlushLoads => TidyWait(ls, g.tr.loads != {}, g.tr, top);
      case FlushStores => TidyWait(ls, g.tr.stores, g.tr, top);
      case Seq(a, b) =>
        var x := Gen(ls, a, g, head);
        CodeTidy(ls, a, brk, cont, g, head, top);
        CodeTidy(ls, b, brk, cont, x.ctx, head, top);
        TidyConcat(x.code, Gen(ls, b, x.ctx, head).code, top);
      case If(cond, v, t) =>
        InvertBelow(cond, v, top);
        var p := GenBranch(ls, End, Invert(cond), v, g.tr);
        var x := Gen(ls, t, Ctx(p.tr, g.ifLs, false), head);
        TidyBranch(ls, End, Invert(cond), v, g.tr, top);
        CodeTidy(ls, t, brk, cont, Ctx(p.tr, g.ifLs, false), head, top);
        TidyResolved(p.code, |p.code| + |x.code|, 0, x.code, top);
      case IfElse(cond, v, t, e) => ElseTidy(ls, s, brk, cont, g, head, top);
      case While(cond, v, body) => WhileTidy(ls, s, g, head, top);
      case BreakIf(cond, v) => TidyBranch(ls, End, cond, v, g.tr, top);
      case ContinueIf(cond, v) =>
        var w := WaitIf(ls, g.tr.loads - head.loads != {}, g.tr);
        TidyWait(ls, g.tr.loads - head.loads != {}, g.tr, top);
        TidyBranch(ls, Start, cond, v, w.tr, top);
        TidyConcat(w.code, GenBranch(ls, Start, cond, v, w.tr).code, top);
      case Match(v, scratch, cs) => CasesTidy(ls, v, scratch, cs, brk, cont, true, g.tr, IDLE, g.(pend := false), head,
                                              top);
      case Maybe(patched, body) =>
        var x := Gen(ls, body, g.(pend := false), head);
        CodeTidy(ls, body, false, cont, g.(pend := false), head, top);
        TidyWait(ls, x.ctx.tr.loads - g.tr.loads != {} || (x.ctx.tr.stores && !g.tr.stores), x.ctx.tr, top);
        TidyConcat(x.code, MaybeWait(ls, g.tr, x).code, top);
        TidyBlank(|x.code + MaybeWait(ls, g.tr, x).code|, g.tr.loads, top);
      case Skip => TidyWait(ls, false, g.tr, top);
    }
  }

  lemma TidyBlank(n: nat, loads: set<Reg>, top: Reg)
    ensures Tidy(Blank(n, loads), top)
  {
  }

  lemma {:induction false} ElseTidy(ls: nat, s: Stmt, brk: bool, cont: bool, g: Ctx, head: Ls, top: Reg)
    requires s.IfElse? && WellFormed(s, brk, cont) && UsesBelow(s, top)
    ensures Tidy(Gen(ls, s, g, head).code, top)
    decreases s, 0
  {
    hide Tidy, GenBranch, Resolve, Neat;
    InvertBelow(s.cond, s.val, top);
    var p := GenBranch(ls, End, Invert(s.cond), s.val, g.tr);
    var x := Gen(ls, s.thn, Ctx(p.tr, g.ifLs, false), head);
    var y := Gen(ls, s.els, ElseCtx(p, x), head);
    var away := [Emit(Branch(|y.code|, Always, 0), x.ctx.tr.loads)];
    TidyBranch(ls, End, Invert(s.cond), s.val, g.tr, top);
    CodeTidy(ls, s.thn, brk, cont, Ctx(p.tr, g.ifLs, false), head, top);
    CodeTidy(ls, s.els, brk, cont, ElseCtx(p, x), head, top);
    TidyAway(x.ctx.tr.loads, y.code, top);
    TidyConcat(x.code, away + y.code, top);
    TidyResolved(p.code, |p.code| + |x.code| + 1, 0, x.code + (away + y.code), top);
    assert OutIfElse(p, x, y).code == Resolve(p.code, |p.code| + |x.code| + 1, 0) + (x.code + (away + y.code));
  }

  lemma {:induction false} WhileTidy(ls: nat, s: Stmt, g: Ctx, head: Ls, top: Reg)
    requires s.While? && WellFormed(s, false, false) && UsesBelow(s, top)
    ensures Tidy(Gen(ls, s, g, head).code, top)
    decreases s, 0
  {
    hide Tidy, GenBranch, Resolve, Neat;
    InvertBelow(s.cond, s.val, top);
    var p := if s.cond == Always then Piece([], g.tr) else GenBranch(ls, End, Invert(s.cond), s.val, g.tr);
    var x := Gen(ls, s.body, Ctx(p.tr, g.ifLs, false), p.tr);
    var w := LoopWait(ls, p, x);
    var q := GenBranch(ls, Start, s.cond, s.val, w.tr);
    TidyBlank(0, {}, top);
    assert Blank(0, {}) == [];
    if s.cond != Always { TidyBranch(ls, End, Invert(s.cond), s.val, g.tr, top); }
    CodeTidy(ls, s.body, true, true, Ctx(p.tr, g.ifLs, false), p.tr, top);
    TidyWait(ls, x.ctx.tr.loads - p.tr.loads != {}, x.ctx.tr, top);
    TidyBranch(ls, Start, s.cond, s.val, w.tr, top);
    TidyConcat(p.code, x.code, top);
    TidyConcat(p.code + x.code, w.code, top);
    TidyConcat(p.code + x.code + w.code, q.code, top);
    var inner := p.code + x.code + w.code + q.code;
    TidyResolved(inner, |inner|, |p.code|, [], top);
    assert Resolve(inner, |inner|, |p.code|) + [] == Resolve(inner, |inner|, |p.code|);
  }

  lemma {:induction false} CasesTidy(ls: nat, v: Reg, scratch: Reg, cs: Cases, brk: bool, cont: bool, first: bool,
                                     orig: Ls, acc: Ls, g: Ctx, head: Ls, top: Reg)
    requires WellFormedCases(cs, brk, cont) && CasesBelow(cs, top) && v < top && scratch < top
    ensures Tidy(GenCases(ls, v, scratch, cs, first, orig, acc, g, head).code, top)
    decreases cs, 0
  {
    hide Tidy, Gen, GenTest, Neat;
    match cs
    case NoCase =>
      TidyBlank(0, {}, top);
      assert Blank(0, {}) == [];
    case Default(body) => CodeTidy(ls, body, brk, cont, Ctx(orig, g.ifLs, false), head, top);
    case Case(id, body, rest) =>
      var view := if first then g.tr.loads else orig.loads;
      var orig' := if first then GenTest(ls, v, scratch, id, 0, g.tr, view).tr else orig;
      var x := Gen(ls, body, Ctx(orig', g.ifLs, false), head);
      var y := GenCases(ls, v, scratch, rest, false, orig', Join(acc, x.ctx.tr), x.ctx, head);
      var tail := if rest.NoCase? then [] else [Emit(Branch(|y.code|, Always, 0), x.ctx.tr.loads)] + y.code;
      var skip := |x.code| + if rest.NoCase? then 0 else 1;
      var test := GenTest(ls, v, scratch, id, skip, g.tr, view).code;
      CodeTidy(ls, body, brk, cont, Ctx(orig', g.ifLs, false), head, top);
      CasesTidy(ls, v, scratch, rest, brk, cont, false, orig', Join(acc, x.ctx.tr), x.ctx, head, top);
      TidyBlank(0, {}, top);
      assert Blank(0, {}) == [];
      TidyAway(x.ctx.tr.loads, y.code, top);
      TidyConcat(x.code, tail, top);
      TidyTest(ls, v, scratch, id, skip, g.tr, view, x.code + tail, top);
      assert test + x.code + tail == test + (x.code + tail);
  }

  // ----- Breaks and continues -------------------------------------------------------------------------------

  /** Only with `brk` and `cont` does the code leave for the end or the start of a loop. */
  ghost predicate Exits(code: seq<Item>, brk: bool, cont: bool) {
    forall i :: 0 <= i < |code| ==> (code[i].ToEnd? ==> brk) && (code[i].ToStart? ==> cont)
  }

  lemma ExitsConcat(a: seq<Item>, b: seq<Item>, brk: bool, cont: bool)
    requires Exits(a, brk, cont) && Exits(b, brk, cont)
    ensures Exits(a + b, brk, cont)
  {
  }

  lemma ExitsResolved(code: seq<Item>, e: int, s: int, brk: bool, cont: bool)
    ensures Exits(Resolve(code, e, s), brk, cont)
  {
  }

  lemma ExitsOne(ls: nat, t: Target, cond: Cond, v: Reg, tr: Ls, rest: seq<Item>, brk: bool, cont: bool)
    requires (t.End? ==> brk) && (t.Start? ==> cont) && Exits(rest, brk, cont)
    ensures Exits(Branch32(ls, t, cond, v, tr).code + rest, brk, cont)
  {
    assert Exits(Branch32(ls, t, cond, v, tr).code, brk, cont);
  }

  lemma ExitsBranch(ls: nat, t: Target, cond: Cond, val: Val, tr: Ls, brk: bool, cont: bool)
    requires (t.End? ==> brk) && (t.Start? ==> cont) && !t.Ahead?
    ensures Exits(GenBranch(ls, t, cond, val, tr).code, brk, cont)
  {
    hide Branch32, Tested;
    var lo, hi := val.reg, val.reg + 1;
    var t1, t2 := Tested(ls, Less, hi, tr), Tested(ls, NEqual, hi, Tested(ls, Less, hi, tr));
    forall c, v, u { ExitsOne(ls, t, c, v, u, [], brk, cont); }
    assert forall c, v, u :: Branch32(ls, t, c, v, u).code + [] == Branch32(ls, t, c, v, u).code;
    if val.wide {
      match cond
      case LEqual =>
        var z := Branch32(ls, t, Equal, lo, t2).code;
        ExitsOne(ls, Ahead(|z|), NEqual, hi, t1, z, brk, cont);
      case Greater =>
        var z := Branch32(ls, t, NEqual, hi, t1).code + Branch32(ls, t, NEqual, lo, t2).code;
        ExitsOne(ls, Ahead(|z|), Less, hi, tr, z, brk, cont);
      case GEqual =>
        var z := Branch32(ls, t, Always, 0, t1).code;
        ExitsOne(ls, Ahead(|z|), Less, hi, tr, z, brk, cont);
      case Equal =>
        var z := Branch32(ls, t, Equal, hi, Tested(ls, NEqual, lo, tr)).code;
        ExitsOne(ls, Ahead(|z|), NEqual, lo, tr, z, brk, cont);
      case _ =>
    }
  }

  /** Branches to the end and the start of a loop come from breaks and continues of that loop alone. */
  lemma {:induction false} CodeExits(ls: nat, s: Stmt, brk: bool, cont: bool, g: Ctx, head: Ls)
    requires WellFormed(s, brk, cont)
    ensures Exits(Gen(ls, s, g, head).code, brk, cont)
    decreases s, 1
  {
    hide GenBranch, GenOp, GenCases, Resolve;
    match s {
      case Op(i) => assert GenOp(ls, i, g.tr).code == WaitIf(ls, Clash(i, g.tr.loads), g.tr).code
              + [Emit(i, WaitIf(ls, Clash(i, g.tr.loads), g.tr).tr.loads)] by { OpIs(ls, i, g.tr); }
      case Seq(a, b) =>
        var x := Gen(ls, a, g, head);
        CodeExits(ls, a, brk, cont, g, head);
        CodeExits(ls, b, brk, cont, x.ctx, head);
        ExitsConcat(x.code, Gen(ls, b, x.ctx, head).code, brk, cont);
      case If(cond, v, t) =>
        var p := GenBranch(ls, End, Invert(cond), v, g.tr);
        var x := Gen(ls, t, Ctx(p.tr, g.ifLs, false), head);
        CodeExits(ls, t, brk, cont, Ctx(p.tr, g.ifLs, false), head);
        ExitsResolved(p.code, |p.code| + |x.code|, 0, brk, cont);
        ExitsConcat(Resolve(p.code, |p.code| + |x.code|, 0), x.code, brk, cont);
      case IfElse(cond, v, t, e) => ElseExits(ls, s, brk, cont, g, head);
      case While(cond, v, body) =>
        var p := if cond == Always then Piece([], g.tr) else GenBranch(ls, End, Invert(cond), v, g.tr);
        var x := Gen(ls, body, Ctx(p.tr, g.ifLs, false), p.tr);
        var w := LoopWait(ls, p, x);
        var inner := p.code + x.code + w.code + GenBranch(ls, Start, cond, v, w.tr).code;
        ExitsResolved(inner, |inner|, |p.code|, brk, cont);
      case BreakIf(cond, v) => ExitsBranch(ls, End, cond, v, g.tr, brk, cont);
      case ContinueIf(cond, v) =>
        var w := WaitIf(ls, g.tr.loads - head.loads != {}, g.tr);
        ExitsBranch(ls, Start, cond, v, w.tr, brk, cont);
        ExitsConcat(w.code, GenBranch(ls, Start, cond, v, w.tr).code, brk, cont);
      case Match(v, scratch, cs) => CasesExit(ls, v, scratch, cs, brk, cont, true, g.tr, IDLE, g.(pend := false), head);
      case Maybe(patched, body) =>
        var x := Gen(ls, body, g.(pend := false), head);
        CodeExits(ls, body, false, cont, g.(pend := false), head);
        ExitsConcat(x.code, MaybeWait(ls, g.tr, x).code, brk, cont);
      case _ =>
    }
  }

  lemma OpIs(ls: nat, i: Instr, tr: Ls)
    ensures var w := WaitIf(ls, Clash(i, tr.loads), tr);
            GenOp(ls, i, tr).code == w.code + [Emit(i, w.tr.loads)]
  {
  }

  lemma {:induction false} ElseExits(ls: nat, s: Stmt, brk: bool, cont: bool, g: Ctx, head: Ls)
    requires s.IfElse? && WellFormed(s, brk, cont)
    ensures Exits(Gen(ls, s, g, head).code, brk, cont)
    decreases s, 0
  {
    hide GenBranch, Resolve;
    var p := GenBranch(ls, End, Invert(s.cond), s.val, g.tr);
    var x := Gen(ls, s.thn, Ctx(p.tr, g.ifLs, false), head);
    CodeExits(ls, s.thn, brk, cont, Ctx(p.tr, g.ifLs, false), head);
    CodeExits(ls, s.els, brk, cont, ElseCtx(p, x), head);
    ExitsResolved(p.code, |p.code| + |x.code| + 1, 0, brk, cont);
  }

  lemma {:induction false} CasesExit(ls: nat, v: Reg, scratch: Reg, cs: Cases, brk: bool, cont: bool, first: bool,
                                     orig: Ls, acc: Ls, g: Ctx, head: Ls)
    requires WellFormedCases(cs, brk, cont)
    ensures Exits(GenCases(ls, v, scratch, cs, first, orig, acc, g, head).code, brk, cont)
    decreases cs, 0
  {
    hide Gen, GenTest;
    match cs
    case NoCase =>
    case Default(body) => CodeExits(ls, body, brk, cont, Ctx(orig, g.ifLs, false), head);
    case Case(id, body, rest) =>
      var view := if first then g.tr.loads else orig.loads;
      var orig' := if first then GenTest(ls, v, scratch, id, 0, g.tr, view).tr else orig;
      var x := Gen(ls, body, Ctx(orig', g.ifLs, false), head);
      var y := GenCases(ls, v, scratch, rest, false, orig', Join(acc, x.ctx.tr), x.ctx, head);
      var test := GenTest(ls, v, scratch, id, |x.code| + if rest.NoCase? then 0 else 1, g.tr, view).code;
      var away := [Emit(Branch(|y.code|, Always, 0), x.ctx.tr.loads)];
      CodeExits(ls, body, brk, cont, Ctx(orig', g.ifLs, false), head);
      CasesExit(ls, v, scratch, rest, brk, cont, false, orig', Join(acc, x.ctx.tr), x.ctx, head);
      ExitsTest(ls, v, scratch, id, |x.code| + if rest.NoCase? then 0 else 1, g.tr, view, brk, cont);
      ExitsConcat(test, x.code, brk, cont);
      ExitsConcat(away, y.code, brk, cont);
      ExitsConcat(test + x.code, if rest.NoCase? then [] else away + y.code, brk, cont);
  }

  lemma ExitsTest(ls: nat, v: Reg, scratch: Reg, id: Word, n: nat, tr: Ls, view: set<Reg>, brk: bool, cont: bool)
    ensures Exits(GenTest(ls, v, scratch, id, n, tr, view).code, brk, cont)
  {
  }

  /** The finished code of a whole program can go into a chunk. */
  lemma FinishedTidy(ls: nat, s: Stmt, g: Ctx, head: Ls, top: Reg)
    requires WellFormed(s, false, false) && UsesBelow(s, top)
    ensures var p := Finish(Gen(ls, s, g, head).code);
            Linking.Closed(p) && Linking.AllBelow(p, top)
  {
    hide Gen;
    var code := Gen(ls, s, g, head).code;
    CodeTidy(ls, s, false, false, g, head, top);
    CodeExits(ls, s, false, false, g, head);
    assert forall i :: 0 <= i < |code| ==> Neat(code[i], i, |code|, top) && Finish(code)[i] == code[i].i;
  }
}
