/** Programs whose text says that the tracker is right for them. */
module Careful {
  import opened Isa
  import opened Structured
  import opened Tracker
  import Preservation
  import Async

  // ----- What may be in flight --------------------------------------------------------------------

  /** The registers a program loads anywhere. */
  function Loaded(s: Stmt): set<Reg> {
    match s
    case Op(i) => if i.Load? then Row(i.base, i.mask) else {}
    case Seq(a, b) => Loaded(a) + Loaded(b)
    case If(_, _, t) => Loaded(t)
    case IfElse(_, _, t, e) => Loaded(t) + Loaded(e)
    case While(_, _, body) => Loaded(body)
    case Match(_, _, cs) => LoadedCases(cs)
    case Maybe(_, body) => Loaded(body)
    case _ => {}
  }

  function LoadedCases(cs: Cases): set<Reg> {
    match cs
    case NoCase => {}
    case Default(body) => Loaded(body)
    case Case(_, body, rest) => Loaded(body) + LoadedCases(rest)
  }

  /** No conditional that opens an `if`, at any depth. */
  predicate NoIf(s: Stmt) {
    match s
    case Seq(a, b) => NoIf(a) && NoIf(b)
    case If(_, _, _) => false
    case IfElse(_, _, _, _) => false
    case While(_, _, body) => NoIf(body)
    case Match(_, _, cs) => NoIfCases(cs)
    case Maybe(_, body) => NoIf(body)
    case _ => true
  }

  predicate NoIfCases(cs: Cases) {
    match cs
    case NoCase => true
    case Default(body) => NoIf(body)
    case Case(_, body, rest) => NoIf(body) && NoIfCases(rest)
  }

  /** What may be in flight after `s` when no more than `fly` was before it. WAITs the builder inserts on
      its own are not counted on. */
  function Flying(ls: nat, s: Stmt, fly: set<Reg>): set<Reg> {
    match s
    case Op(i) => Flight(ls, i, fly)
    case FlushLoads => {}
    case Seq(a, b) => Flying(ls, b, Flying(ls, a, fly))
    case If(_, _, t) => fly + Flying(ls, t, fly)
    case IfElse(_, _, t, e) => AfterElse(Flying(ls, t, fly), fly, e, Flying(ls, e, fly + Flying(ls, t, fly)))
    case While(_, _, body) => fly + Loaded(body)
    case Match(_, _, cs) => fly + FlyingCases(ls, cs, fly)
    case _ => fly
  }

  /** The two arms; an `if` in the `else` arm may leave what it held in flight to be counted again. */
  function AfterElse(one: set<Reg>, fly: set<Reg>, e: Stmt, two: set<Reg>): set<Reg> {
    one + two + if NoIf(e) then {} else fly + Loaded(e)
  }

  function FlyingCases(ls: nat, cs: Cases, fly: set<Reg>): set<Reg> {
    match cs
    case NoCase => {}
    case Default(body) => Flying(ls, body, fly)
    case Case(_, body, rest) => Flying(ls, body, fly) + FlyingCases(ls, rest, fly)
  }

  // ----- The conditions -----------------------------------------------------------------------------

  /** Each pair that begins at one of `pairs` is in the set as a whole or not at all. */
  ghost predicate Whole(s: set<Reg>, pairs: set<Reg>) {
    forall r :: r in pairs ==> (r in s <==> r + 1 in s)
  }

  /** The halves of a 64-bit condition are only ever loaded together, or not in flight. */
  predicate CarefulTest(v: Val, fly: set<Reg>, pairs: set<Reg>) {
    v.wide ==> v.reg in pairs || {v.reg, v.reg + 1} !! fly
  }

  /** The first case of a match does not leave the scratch register in flight behind its test. */
  predicate CarefulFirst(scratch: Reg, cs: Cases, fly: set<Reg>) {
    cs.Case? && cs.id == 0 ==> scratch !in fly
  }

  /** What the text of a program has to obey, when no more than `fly` is in flight before it: the pairs in
      `pairs` are loaded as a whole; 64-bit conditions are on such pairs, or on registers not in flight;
      an `else` body opens no `if`, unless nothing is in flight after its `if`; and a match that begins
      with the id 0 does so with its scratch register not in flight. */
  ghost predicate Heeds(ls: nat, s: Stmt, fly: set<Reg>, pairs: set<Reg>) {
    match s
    case Op(i) => i.Load? ==> Whole(Row(i.base, i.mask), pairs)
    case Seq(a, b) => Heeds(ls, a, fly, pairs) && Heeds(ls, b, Flying(ls, a, fly), pairs)
    case If(_, v, t) => CarefulTest(v, fly, pairs) && Heeds(ls, t, fly, pairs)
    case IfElse(_, v, t, e) =>
      && CarefulTest(v, fly, pairs) && Heeds(ls, t, fly, pairs)
      && Heeds(ls, e, fly + Flying(ls, t, fly), pairs)
      && (NoIf(e) || Flying(ls, t, fly) == {})
    case While(_, v, body) =>
      && CarefulTest(v, fly, pairs) && Heeds(ls, body, fly, pairs)
      && CarefulTest(v, Flying(ls, body, fly), pairs)
    case BreakIf(_, v) => CarefulTest(v, fly, pairs)
    case ContinueIf(_, v) => CarefulTest(v, fly, pairs)
    case Match(_, scratch, cs) => CarefulFirst(scratch, cs, fly) && HeedCases(ls, cs, fly, pairs)
    case Maybe(_, body) => Heeds(ls, body, fly, pairs)
    case _ => true
  }

  ghost predicate HeedCases(ls: nat, cs: Cases, fly: set<Reg>, pairs: set<Reg>) {
    match cs
    case NoCase => true
    case Default(body) => Heeds(ls, body, fly, pairs)
    case Case(_, body, rest) => Heeds(ls, body, fly, pairs) && HeedCases(ls, rest, fly, pairs)
  }

  // ----- The bounds hold ------------------------------------------------------------------------------

  /** `else` bodies without an `if` leave `pending_if` alone. */
  lemma {:induction false} PendingKept(ls: nat, s: Stmt, g: Ctx, head: Ls)
    requires NoIf(s)
    ensures Gen(ls, s, g, head).ctx.ifLs == g.ifLs
    decreases s, 1
  {
    hide GenBranch, Clash, WaitIf;
    match s
    case Seq(a, b) => PendingKept(ls, a, g, head); PendingKept(ls, b, Gen(ls, a, g, head).ctx, head);
    case While(cond, v, body) =>
      var q := if cond == Always then Piece([], g.tr) else GenBranch(ls, End, Invert(cond), v, g.tr);
      PendingKept(ls, body, Ctx(q.tr, g.ifLs, false), q.tr);
    case Match(v, scratch, cs) => PendingKeptCases(ls, v, scratch, cs, true, g.tr, IDLE, g.(pend := false), head);
    case Maybe(_, body) => PendingKept(ls, body, g.(pend := false), head);
    case _ =>
  }

  lemma {:induction false} PendingKeptCases(ls: nat, v: Reg, scratch: Reg, cs: Cases, first: bool, orig: Ls, acc: Ls,
                                            g: Ctx, head: Ls)
    requires NoIfCases(cs)
    ensures GenCases(ls, v, scratch, cs, first, orig, acc, g, head).ctx.ifLs == g.ifLs
    decreases cs, 1
  {
    match cs
    case NoCase =>
    case Default(body) => PendingKept(ls, body, Ctx(orig, g.ifLs, false), head);
    case Case(id, body, rest) =>
      var q := GenTest(ls, v, scratch, id, 0, g.tr, if first then g.tr.loads else orig.loads);
      var orig' := if first then q.tr else orig;
      var x := Gen(ls, body, Ctx(orig', g.ifLs, false), head);
      PendingKept(ls, body, Ctx(orig', g.ifLs, false), head);
      PendingKeptCases(ls, v, scratch, rest, false, orig', Join(acc, x.ctx.tr), x.ctx, head);
  }

  /** An `else` body without an `if`: the tracker after it covers both arms. */
  lemma ElseWithoutIf(ls: nat, p: Piece, x: Out, els: Stmt, head: Ls)
    requires NoIf(els)
    ensures ElseCovers(x, Gen(ls, els, ElseCtx(p, x), head))
  {
    PendingKept(ls, els, ElseCtx(p, x), head);
  }

  /** What may be in flight was so before or is loaded. */
  lemma {:induction false} FlyingIsLoaded(ls: nat, s: Stmt, fly: set<Reg>)
    ensures Flying(ls, s, fly) <= fly + Loaded(s)
    decreases s
  {
    match s
    case Seq(a, b) => FlyingIsLoaded(ls, a, fly); FlyingIsLoaded(ls, b, Flying(ls, a, fly));
    case If(_, _, t) => FlyingIsLoaded(ls, t, fly);
    case IfElse(_, _, t, e) => FlyingIsLoaded(ls, t, fly); FlyingIsLoaded(ls, e, fly + Flying(ls, t, fly));
    case Match(_, _, cs) => FlyingCasesAreLoaded(ls, cs, fly);
    case _ =>
  }

  lemma {:induction false} FlyingCasesAreLoaded(ls: nat, cs: Cases, fly: set<Reg>)
    ensures FlyingCases(ls, cs, fly) <= fly + LoadedCases(cs)
    decreases cs
  {
    match cs
    case NoCase =>
    case Default(body) => FlyingIsLoaded(ls, body, fly);
    case Case(_, body, rest) => FlyingIsLoaded(ls, body, fly); FlyingCasesAreLoaded(ls, rest, fly);
  }

  /** A tracker that does not know of more than `fly`, nor of half a pair. */
  ghost predicate Fine(tr: Ls, fly: set<Reg>, pairs: set<Reg>) {
    tr.loads <= fly && Whole(tr.loads, pairs)
  }

  /** What a program leaves behind: its trackers stay within the bounds. */
  ghost predicate Bounds(o: Out, g: Ctx, s: Stmt, fly: set<Reg>, after: set<Reg>, pairs: set<Reg>) {
    && Fine(o.ctx.tr, after, pairs)
    && Fine(o.div, fly + Loaded(s), pairs)
    && Fine(o.ctx.ifLs, g.ifLs.loads + fly + Loaded(s), pairs)
  }

  ghost predicate BoundCases(o: Out, g: Ctx, cs: Cases, fly: set<Reg>, after: set<Reg>, pairs: set<Reg>) {
    && Fine(o.ctx.tr, after, pairs)
    && Fine(o.div, fly + LoadedCases(cs), pairs)
    && Fine(o.ctx.ifLs, g.ifLs.loads + fly + LoadedCases(cs), pairs)
  }

  lemma FineJoin(a: Ls, b: Ls, fly: set<Reg>, pairs: set<Reg>)
    requires Fine(a, fly, pairs) && Fine(b, fly, pairs)
    ensures Fine(Join(a, b), fly, pairs)
  {
  }

  lemma FineMore(a: Ls, fly: set<Reg>, more: set<Reg>, pairs: set<Reg>)
    requires Fine(a, fly, pairs) && fly <= more
    ensures Fine(a, more, pairs)
  {
  }

  /** Waiting leaves nothing in flight, and so nothing wrong. */
  lemma FineBranch(ls: nat, t: Target, cond: Cond, v: Val, tr: Ls, fly: set<Reg>, pairs: set<Reg>)
    requires Fine(tr, fly, pairs)
    ensures Fine(GenBranch(ls, t, cond, v, tr).tr, fly, pairs)
    ensures CarefulTest(v, fly, pairs) ==> SplitOk(cond, v, tr) && SplitOk(Invert(cond), v, tr)
  {
    hide Branch64, Branch32;
    AfterBranch(ls, t, cond, v, tr);
  }

  lemma FineOp(ls: nat, i: Instr, tr: Ls, fly: set<Reg>, pairs: set<Reg>)
    requires Fine(tr, fly, pairs) && (i.Load? ==> Whole(Row(i.base, i.mask), pairs))
    ensures Fine(GenOp(ls, i, tr).tr, Flight(ls, i, fly), pairs)
  {
    hide Clash, Row;
  }

  /** The trackers stay within the bounds, and `Covered` follows. */
  lemma {:induction false} Bounded(ls: nat, s: Stmt, g: Ctx, head: Ls, fly: set<Reg>, pairs: set<Reg>)
    requires Heeds(ls, s, fly, pairs) && Fine(g.tr, fly, pairs) && Whole(g.ifLs.loads, pairs)
    ensures Bounds(Gen(ls, s, g, head), g, s, fly, Flying(ls, s, fly), pairs)
    ensures Covered(ls, s, g, head)
    decreases s, 1
  {
    hide GenBranch, GenOp, Clash, SplitOk, CarefulTest;
    match s
    case Op(i) => FineOp(ls, i, g.tr, fly, pairs);
    case Seq(a, b) => BoundedSeq(ls, a, b, g, head, fly, pairs);
    case If(cond, v, t) =>
      FineBranch(ls, End, Invert(cond), v, g.tr, fly, pairs);
      FineBranch(ls, End, cond, v, g.tr, fly, pairs);
      var q := GenBranch(ls, End, Invert(cond), v, g.tr);
      Bounded(ls, t, Ctx(q.tr, g.ifLs, false), head, fly, pairs);
      FlyingIsLoaded(ls, t, fly);
    case IfElse(cond, v, t, e) => BoundedElse(ls, cond, v, t, e, g, head, fly, pairs);
    case While(cond, v, body) => BoundedWhile(ls, cond, v, body, g, head, fly, pairs);
    case BreakIf(cond, v) => FineBranch(ls, End, cond, v, g.tr, fly, pairs);
    case ContinueIf(cond, v) =>
      FineBranch(ls, Start, cond, v, WaitIf(ls, g.tr.loads - head.loads != {}, g.tr).tr, fly, pairs);
    case Match(v, scratch, cs) =>
      BoundedCases(ls, v, scratch, cs, true, g.tr, IDLE, g.(pend := false), head, fly, fly + FlyingCases(ls, cs, fly),
                   pairs);
    case Maybe(_, body) =>
      Bounded(ls, body, g.(pend := false), head, fly, pairs);
    case _ =>
  }

  lemma {:induction false} BoundedSeq(ls: nat, a: Stmt, b: Stmt, g: Ctx, head: Ls, fly: set<Reg>, pairs: set<Reg>)
    requires Heeds(ls, Seq(a, b), fly, pairs) && Fine(g.tr, fly, pairs) && Whole(g.ifLs.loads, pairs)
    ensures Bounds(Gen(ls, Seq(a, b), g, head), g, Seq(a, b), fly, Flying(ls, Seq(a, b), fly), pairs)
    ensures Covered(ls, Seq(a, b), g, head)
    decreases Seq(a, b), 0
  {
    var x := Gen(ls, a, g, head);
    Bounded(ls, a, g, head, fly, pairs);
    FlyingIsLoaded(ls, a, fly);
    Bounded(ls, b, x.ctx, head, Flying(ls, a, fly), pairs);
    var y := Gen(ls, b, x.ctx, head);
    var more := fly + Loaded(Seq(a, b));
    FineMore(x.div, fly + Loaded(a), more, pairs);
    FineMore(y.div, Flying(ls, a, fly) + Loaded(b), more, pairs);
    FineJoin(x.div, y.div, more, pairs);
    FineMore(y.ctx.ifLs, x.ctx.ifLs.loads + Flying(ls, a, fly) + Loaded(b), g.ifLs.loads + more, pairs);
  }

  lemma {:induction false} BoundedElse(ls: nat, cond: Cond, v: Val, t: Stmt, e: Stmt, g: Ctx, head: Ls,
                                       fly: set<Reg>, pairs: set<Reg>)
    requires Heeds(ls, IfElse(cond, v, t, e), fly, pairs) && Fine(g.tr, fly, pairs) && Whole(g.ifLs.loads, pairs)
    ensures var s := IfElse(cond, v, t, e);
            && Bounds(Gen(ls, s, g, head), g, s, fly, Flying(ls, s, fly), pairs)
            && Covered(ls, s, g, head)
    decreases IfElse(cond, v, t, e), 0
  {
    hide GenBranch, SplitOk, CarefulTest;
    FineBranch(ls, End, Invert(cond), v, g.tr, fly, pairs);
    var p := GenBranch(ls, End, Invert(cond), v, g.tr);
    var g1 := Ctx(p.tr, g.ifLs, false);
    var x := Gen(ls, t, g1, head);
    Bounded(ls, t, g1, head, fly, pairs);
    FlyingIsLoaded(ls, t, fly);
    var one := Flying(ls, t, fly);
    var g2 := ElseCtx(p, x);
    FineMore(p.tr, fly, fly + one, pairs);
    FineMore(x.ctx.tr, one, fly + one, pairs);
    FineJoin(p.tr, x.ctx.tr, fly + one, pairs);
    Bounded(ls, e, g2, head, fly + one, pairs);
    FlyingIsLoaded(ls, e, fly + one);
    var y := Gen(ls, e, g2, head);
    if NoIf(e) { PendingKept(ls, e, g2, head); }
    var two := Flying(ls, e, fly + one);
    var after := AfterElse(one, fly, e, two);
    assert Fine(y.ctx.ifLs, after, pairs);
    FineMore(y.ctx.tr, two, after, pairs);
    FineJoin(y.ctx.ifLs, y.ctx.tr, after, pairs);
    var more := fly + Loaded(IfElse(cond, v, t, e));
    FineMore(x.div, fly + Loaded(t), more, pairs);
    FineMore(y.div, fly + one + Loaded(e), more, pairs);
    FineJoin(x.div, y.div, more, pairs);
  }

  lemma {:induction false} BoundedWhile(ls: nat, cond: Cond, v: Val, body: Stmt, g: Ctx, head: Ls,
                                        fly: set<Reg>, pairs: set<Reg>)
    requires Heeds(ls, While(cond, v, body), fly, pairs) && Fine(g.tr, fly, pairs) && Whole(g.ifLs.loads, pairs)
    ensures var s := While(cond, v, body);
            && Bounds(Gen(ls, s, g, head), g, s, fly, Flying(ls, s, fly), pairs)
            && Covered(ls, s, g, head)
    decreases While(cond, v, body), 0
  {
    hide GenBranch, SplitOk, CarefulTest;
    FineBranch(ls, End, Invert(cond), v, g.tr, fly, pairs);
    var p := if cond == Always then Piece([], g.tr) else GenBranch(ls, End, Invert(cond), v, g.tr);
    var g1 := Ctx(p.tr, g.ifLs, false);
    var x := Gen(ls, body, g1, p.tr);
    Bounded(ls, body, g1, p.tr, fly, pairs);
    FlyingIsLoaded(ls, body, fly);
    var w := LoopWait(ls, p, x);
    assert Fine(w.tr, Flying(ls, body, fly), pairs);
    FineBranch(ls, Start, cond, v, w.tr, Flying(ls, body, fly), pairs);
    var q := GenBranch(ls, Start, cond, v, w.tr);
    var more := fly + Loaded(body);
    FineMore(p.tr, fly, more, pairs);
    FineMore(q.tr, Flying(ls, body, fly), more, pairs);
    FineJoin(p.tr, x.div, more, pairs);
    FineJoin(Join(p.tr, x.div), q.tr, more, pairs);
  }

  /** Which registers the tests of a match may meet in flight. */
  ghost predicate TestsFine(v: Reg, scratch: Reg, first: bool, orig: Ls, tr: Ls, cs: Cases, fly: set<Reg>) {
    if first then orig == tr && CarefulFirst(scratch, cs, fly) else {v, scratch} !! orig.loads
  }

  lemma {:induction false} BoundedCases(ls: nat, v: Reg, scratch: Reg, cs: Cases, first: bool, orig: Ls, acc: Ls,
                                        g: Ctx, head: Ls, fly: set<Reg>, after: set<Reg>, pairs: set<Reg>)
    requires HeedCases(ls, cs, fly, pairs) && Whole(g.ifLs.loads, pairs)
    requires TestsFine(v, scratch, first, orig, g.tr, cs, fly)
    requires Fine(orig, fly, pairs) && Fine(acc, after, pairs) && fly + FlyingCases(ls, cs, fly) <= after
    ensures BoundCases(GenCases(ls, v, scratch, cs, first, orig, acc, g, head), g, cs, fly, after, pairs)
    ensures CoveredCases(ls, v, scratch, cs, first, orig, acc, g, head)
    decreases cs, 0
  {
    hide Gen, GenTest, Clash, TestCovered;
    match cs
    case NoCase =>
      FineMore(orig, fly, after, pairs);
      FineJoin(orig, acc, after, pairs);
    case Default(body) =>
      var x := Gen(ls, body, Ctx(orig, g.ifLs, false), head);
      Bounded(ls, body, Ctx(orig, g.ifLs, false), head, fly, pairs);
      FineMore(x.ctx.tr, Flying(ls, body, fly), after, pairs);
      FineJoin(acc, x.ctx.tr, after, pairs);
    case Case(id, body, rest) =>
      var view := if first then g.tr.loads else orig.loads;
      var q := GenTest(ls, v, scratch, id, 0, g.tr, view);
      TestAfter(ls, v, scratch, id, g.tr, view);
      if !first { TestFree(v, scratch, id, g.tr, view); } else { TestFirst(v, scratch, id, g.tr); }
      var orig' := if first then q.tr else orig;
      var x := Gen(ls, body, Ctx(orig', g.ifLs, false), head);
      Bounded(ls, body, Ctx(orig', g.ifLs, false), head, fly, pairs);
      FineMore(x.ctx.tr, Flying(ls, body, fly), after, pairs);
      FineJoin(acc, x.ctx.tr, after, pairs);
      BoundedCases(ls, v, scratch, rest, false, orig', Join(acc, x.ctx.tr), x.ctx, head, fly, after, pairs);
      var y := GenCases(ls, v, scratch, rest, false, orig', Join(acc, x.ctx.tr), x.ctx, head);
      var more := fly + LoadedCases(cs);
      FineMore(x.div, fly + Loaded(body), more, pairs);
      FineMore(y.div, fly + LoadedCases(rest), more, pairs);
      FineJoin(x.div, y.div, more, pairs);
  }

  /** Either a test waits for everything, or what it reads and writes was not in flight. The test for the
      id 0 leaves the scratch register alone. */
  lemma TestAfter(ls: nat, v: Reg, scratch: Reg, id: Word, tr: Ls, view: set<Reg>)
    ensures var after := GenTest(ls, v, scratch, id, 0, tr, view).tr;
            after == IDLE || (after == tr && v !in tr.loads && (id == 0 || scratch !in tr.loads))
  {
    var sub := AddImm32(scratch, v, 0 - id);
    if id != 0 && !Clash(sub, tr.loads) {
      NotBoth(scratch, Operands(sub)[0], tr.loads);
      NotBoth(v, Operands(sub)[1], tr.loads);
    }
  }

  lemma NotBoth(r: Reg, a: set<Reg>, b: set<Reg>)
    requires r in a && a * b == {}
    ensures r !in b
  {
    assert r in b ==> r in a * b;
  }

  lemma TestFree(v: Reg, scratch: Reg, id: Word, tr: Ls, view: set<Reg>)
    requires {v, scratch} !! view
    ensures TestCovered(v, scratch, id, tr, view)
  {
  }

  lemma TestFirst(v: Reg, scratch: Reg, id: Word, tr: Ls)
    ensures TestCovered(v, scratch, id, tr, tr.loads)
  {
  }

  // ----- Main results -----------------------------------------------------------------------------------

  /** A program that heeds the conditions of its text is covered, whatever context it is emitted in, as long
      as no more is in flight before it than assumed. */
  lemma CarefulIsCovered(ls: nat, s: Stmt, g: Ctx, head: Ls, fly: set<Reg>, pairs: set<Reg>)
    requires Heeds(ls, s, fly, pairs) && g.tr.loads <= fly && Whole(g.tr.loads, pairs) && Whole(g.ifLs.loads, pairs)
    ensures Covered(ls, s, g, head) && Gen(ls, s, g, head).ctx.tr.loads <= Flying(ls, s, fly)
  {
    hide Gen, Covered, Heeds, Flying;
    Bounded(ls, s, g, head, fly, pairs);
  }

  /** So a program with nothing in flight before it has no hazard on any path if it obeys these conditions. */
  lemma CarefulNoHazard(ls: nat, s: Stmt, head: Ls, pairs: set<Reg>, pcs: seq<nat>)
    requires WellFormed(s, false, false) && Heeds(ls, s, {}, pairs)
    requires Path(Preservation.Finish(Gen(ls, s, FRESH, head).code), pcs)
    ensures var p := Preservation.Finish(Gen(ls, s, FRESH, head).code);
            var pc, flight := pcs[|pcs| - 1], InFlight(ls, p, pcs, {});
            pc <= |p| && if pc < |p| then !Clash(p[pc], flight) else flight <= Flying(ls, s, {})
  {
    hide Gen, Covered, Heeds, Flying, Clash, InFlight, WellFormed;
    CarefulIsCovered(ls, s, FRESH, head, {}, pairs);
    NoHazard(ls, s, FRESH, head, {}, pcs);
  }

  /** And it means the same on the machine with late loads. */
  lemma CarefulMeaning(ls: nat, s: Stmt, head: Ls, pairs: set<Reg>, states: seq<Async.Late>)
    requires WellFormed(s, false, false) && Heeds(ls, s, {}, pairs)
    requires var p := Preservation.Finish(Gen(ls, s, FRESH, head).code);
             && Async.Run(ls, p, states) && states[0].pc == 0 && states[0].due == map[]
             && states[|states| - 1].pc == |p|
    ensures var last := states[|states| - 1];
            && Preservation.Means(s, states[0].core, Async.Settled(last).core)
            && last.due.Keys <= Flying(ls, s, {})
  {
    hide Gen, Covered, Heeds, Flying, Clash, WellFormed, Preservation.Means;
    CarefulIsCovered(ls, s, FRESH, head, {}, pairs);
    assert Async.Settled(states[0]).core == states[0].core;
    Async.AsyncMeaning(ls, s, FRESH, head, states);
  }
}
