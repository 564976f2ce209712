/**
 The structured programs clients write with the builder's macros, what they mean, and the
 instruction sequence the builder has to produce for them.
 */
module Structured {
  import opened Isa

  // ----- Programs ----------------------------------------------------------------------------

  /** The operand of a condition: one register, or an aligned pair read as a 64-bit value. */
  datatype Val = Val(reg: Reg, wide: bool)

  datatype Stmt =
    | Skip
    | Op(i: Instr)
    | FlushLoads
    | FlushStores
    | Seq(first: Stmt, second: Stmt)
    | If(cond: Cond, val: Val, thn: Stmt)
    | IfElse(cond: Cond, val: Val, thn: Stmt, els: Stmt)
    | While(cond: Cond, val: Val, body: Stmt)
    | BreakIf(cond: Cond, val: Val)
    | ContinueIf(cond: Cond, val: Val)
    | Match(subject: Reg, scratch: Reg, cases: Cases)
    | Maybe(patched: bool, body: Stmt)

  datatype Cases =
    | NoCase
    | Default(body: Stmt)
    | Case(id: Word, body: Stmt, rest: Cases)

  predicate Plain(i: Instr) {
    !i.Branch? && !i.Jump?
  }

  /** What the C macros enforce on their own: `break` and `continue` name an enclosing loop, a
      condition that is inverted is not ALWAYS, a default case follows at least one other case.
      A `break` may not leave a maybe block, whose branches are blanked with the block. */
  predicate WellFormed(s: Stmt, brk: bool, cont: bool) {
    match s
    case Op(i) => Plain(i)
    case Seq(a, b) => WellFormed(a, brk, cont) && WellFormed(b, brk, cont)
    case If(c, _, t) => c != Always && WellFormed(t, brk, cont)
    case IfElse(c, _, t, e) => c != Always && WellFormed(t, brk, cont) && WellFormed(e, brk, cont)
    case While(_, _, body) => WellFormed(body, true, true)
    case BreakIf(_, _) => brk
    case ContinueIf(_, _) => cont
    case Match(v, scratch, cs) => v != scratch && !cs.Default? && WellFormedCases(cs, brk, cont)
    case Maybe(_, body) => WellFormed(body, false, cont)
    case _ => true
  }

  predicate WellFormedCases(cs: Cases, brk: bool, cont: bool) {
    match cs
    case NoCase => true
    case Default(body) => WellFormed(body, brk, cont)
    case Case(_, body, rest) => WellFormed(body, brk, cont) && WellFormedCases(rest, brk, cont)
  }

  // ----- Meaning -----------------------------------------------------------------------------

  /** How a statement ends. `Timeout` is not an end: the loops used up their allowance of iterations. */
  datatype Outcome = Done(core: Core) | Broke(core: Core) | Continued(core: Core) | Timeout(core: Core)

  function Read(v: Val, c: Core): int {
    if v.wide then Signed64(Get64(c.regs, v.reg)) else Signed32(Get(c.regs, v.reg))
  }

  predicate Test(cond: Cond, v: Val, c: Core) {
    Holds(cond, Read(v, c))
  }

  /** `fuel` bounds how often a loop goes round again. `continue` goes round without testing the
      loop condition again. */
  function Exec(s: Stmt, fuel: nat, c: Core): Outcome
    decreases fuel, s, 0
  {
    match s
    case Op(i) => Done(ExecOp(i, c))
    case Seq(a, b) =>
      var r := Exec(a, fuel, c);
      if r.Done? then Exec(b, fuel, r.core) else r
    case If(cond, v, t) => if Test(cond, v, c) then Exec(t, fuel, c) else Done(c)
    case IfElse(cond, v, t, e) => if Test(cond, v, c) then Exec(t, fuel, c) else Exec(e, fuel, c)
    case While(cond, v, body) => if Test(cond, v, c) then ExecLoop(cond, v, body, fuel, c) else Done(c)
    case BreakIf(cond, v) => if Test(cond, v, c) then Broke(c) else Done(c)
    case ContinueIf(cond, v) => if Test(cond, v, c) then Continued(c) else Done(c)
    case Match(v, scratch, cs) => ExecCases(v, scratch, cs, fuel, c)
    case Maybe(patched, body) => if patched then Exec(body, fuel, c) else Done(c)
    case _ => Done(c)
  }

  function ExecLoop(cond: Cond, v: Val, body: Stmt, fuel: nat, c: Core): Outcome
    decreases fuel, body, 1
  {
    var r := Exec(body, fuel, c);
    match r
    case Broke(c1) => Done(c1)
    case Timeout(_) => r
    case _ =>
      if r.Done? && !Test(cond, v, r.core) then r
      else if fuel == 0 then Timeout(r.core)
      else ExecLoop(cond, v, body, fuel - 1, r.core)
  }

  /** The register and state a case is decided on. */
  function TestCase(v: Reg, scratch: Reg, id: Word, c: Core): Core {
    if id == 0 then c else c.(regs := c.regs[scratch := (Get(c.regs, v) - id) % W32])
  }

  function ExecCases(v: Reg, scratch: Reg, cs: Cases, fuel: nat, c: Core): Outcome
    decreases fuel, cs, 0
  {
    match cs
    case NoCase => Done(c)
    case Default(body) => Exec(body, fuel, c)
    case Case(id, body, rest) =>
      var c1 := TestCase(v, scratch, id, c);
      if Get(c1.regs, if id == 0 then v else scratch) == 0
      then Exec(body, fuel, c1)
      else ExecCases(v, scratch, rest, fuel, c1)
  }

  /** The body a subject equal to `w` selects: the first case with that id, else the default, else nothing. */
  function Selected(cs: Cases, w: Word): Stmt {
    match cs
    case NoCase => Skip
    case Default(body) => body
    case Case(id, body, rest) => if id == w then body else Selected(rest, w)
  }

  function Ids(cs: Cases): set<Word> {
    match cs
    case Case(id, _, rest) => {id} + Ids(rest)
    case _ => {}
  }

  /** A match runs exactly the selected body, from the entry state with at most the scratch register
      changed, to the difference between the subject and a case id. The test is a wrapping 32-bit
      subtraction, so it is exact for every pair of ids. */
  lemma {:induction false} MatchDispatch(v: Reg, scratch: Reg, cs: Cases, fuel: nat, c: Core) returns (c1: Core,
      k: Word)
    requires v != scratch
    ensures ExecCases(v, scratch, cs, fuel, c) == Exec(Selected(cs, Get(c.regs, v)), fuel, c1)
    ensures c1 == c || (k in Ids(cs) && c1 == c.(regs := c.regs[scratch := (Get(c.regs, v) - k) % W32]))
  {
    match cs
    case NoCase => c1, k := c, 0;
    case Default(body) => c1, k := c, 0;
    case Case(id, body, rest) =>
      var c2 := TestCase(v, scratch, id, c);
      c1, k := c2, id;
      if Get(c2.regs, if id == 0 then v else scratch) == 0 {
        assert Get(c.regs, v) == id;
      } else {
        var j;
        c1, j := MatchDispatch(v, scratch, rest, fuel, c2);
        if c1 != c2 {
          k := j;
          assert c1.regs == c.regs[scratch := (Get(c.regs, v) - k) % W32];
        }
      }
  }

  /** Once a program comes to an end, having more to spend changes nothing. */
  lemma {:induction false} MoreFuel(s: Stmt, fuel: nat, more: nat, c: Core)
    requires fuel <= more && !Exec(s, fuel, c).Timeout?
    ensures Exec(s, more, c) == Exec(s, fuel, c)
    decreases fuel, s, 0
  {
    hide ExecOp, Test;
    match s
    case Seq(a, b) =>
      MoreFuel(a, fuel, more, c);
      var r := Exec(a, fuel, c);
      if r.Done? { MoreFuel(b, fuel, more, r.core); }
    case If(cond, v, t) => if Test(cond, v, c) { MoreFuel(t, fuel, more, c); }
    case IfElse(cond, v, t, e) => MoreFuel(if Test(cond, v, c) then t else e, fuel, more, c);
    case While(cond, v, body) => if Test(cond, v, c) { MoreFuelLoop(cond, v, body, fuel, more, c); }
    case Match(v, scratch, cs) => MoreFuelCases(v, scratch, cs, fuel, more, c);
    case Maybe(patched, body) => if patched { MoreFuel(body, fuel, more, c); }
    case _ =>
  }

  lemma {:induction false} MoreFuelLoop(cond: Cond, v: Val, body: Stmt, fuel: nat, more: nat, c: Core)
    requires fuel <= more && !ExecLoop(cond, v, body, fuel, c).Timeout?
    ensures ExecLoop(cond, v, body, more, c) == ExecLoop(cond, v, body, fuel, c)
    decreases fuel, body, 1
  {
    hide ExecOp, Test;
    MoreFuel(body, fuel, more, c);
    var r := Exec(body, fuel, c);
    if !r.Broke? && !(r.Done? && !Test(cond, v, r.core)) { MoreFuelLoop(cond, v, body, fuel - 1, more - 1, r.core); }
  }

  lemma {:induction false} MoreFuelCases(v: Reg, scratch: Reg, cs: Cases, fuel: nat, more: nat, c: Core)
    requires fuel <= more && !ExecCases(v, scratch, cs, fuel, c).Timeout?
    ensures ExecCases(v, scratch, cs, more, c) == ExecCases(v, scratch, cs, fuel, c)
    decreases fuel, cs, 0
  {
    hide ExecOp, TestCase;
    match cs
    case NoCase =>
    case Default(body) => MoreFuel(body, fuel, more, c);
    case Case(id, body, rest) =>
      var c1 := TestCase(v, scratch, id, c);
      if Get(c1.regs, if id == 0 then v else scratch) == 0 {
        MoreFuel(body, fuel, more, c1);
      } else {
        MoreFuelCases(v, scratch, rest, fuel, more, c1);
      }
  }

  // ----- The load/store tracker ----------------------------------------------------------------

  /** Registers with a load the builder believes in flight, and whether a store may be. */
  datatype Ls = Ls(loads: set<Reg>, stores: bool)

  const IDLE := Ls({}, false)

  function Join(a: Ls, b: Ls): Ls {
    Ls(a.loads + b.loads, a.stores || b.stores)
  }

  function After(ls: nat, i: Instr, tr: Ls): Ls {
    Ls(Flight(ls, i, tr.loads),
       match i
       case Store(_, _, m, _) => tr.stores || true in m
       case Wait(slots) => tr.stores && ls !in slots
       case _ => tr.stores)
  }

  // ----- Code ----------------------------------------------------------------------------------

  /** An instruction, or a branch to the end or the start of the construct being built. `loads` is the
      set of registers that may have a load in flight when control gets there; apart from the tests
      of a match it is the tracker's own set when the instruction is appended. */
  datatype Item =
    | Emit(i: Instr, loads: set<Reg>)
    | ToEnd(cond: Cond, val: Reg, loads: set<Reg>)
    | ToStart(cond: Cond, val: Reg, loads: set<Reg>)

  datatype Target = End | Start | Ahead(n: nat)

  function Place(x: Item, at: int, end: int, start: int): Instr {
    match x
    case Emit(i, _) => i
    case ToEnd(c, v, _) => Branch(end - at - 1, c, v)
    case ToStart(c, v, _) => Branch(start - at - 1, c, v)
  }

  function Resolve(code: seq<Item>, end: int, start: int): (r: seq<Item>)
    ensures |r| == |code|
  {
    seq(|code|, i requires 0 <= i < |code| => Emit(Place(code[i], i, end, start), code[i].loads))
  }

  function Blank(n: nat, loads: set<Reg>): (r: seq<Item>)
    ensures |r| == n
  {
    seq(n, _ => Emit(Nop, loads))
  }

  datatype Piece = Piece(code: seq<Item>, tr: Ls)

  function WaitIf(ls: nat, need: bool, tr: Ls): Piece {
    if need then Piece([Emit(Wait({ls}), tr.loads)], IDLE) else Piece([], tr)
  }

  function GenOp(ls: nat, i: Instr, tr: Ls): Piece {
    var w := WaitIf(ls, Clash(i, tr.loads), tr);
    Piece(w.code + [Emit(i, w.tr.loads)], After(ls, i, w.tr))
  }

  function BranchItem(t: Target, cond: Cond, v: Reg, loads: set<Reg>): Item {
    match t
    case End => ToEnd(cond, v, loads)
    case Start => ToStart(cond, v, loads)
    case Ahead(n) => Emit(Branch(n, cond, v), loads)
  }

  function Branch32(ls: nat, t: Target, cond: Cond, v: Reg, tr: Ls): Piece {
    var w := WaitIf(ls, cond != Always && v in tr.loads, tr);
    Piece(w.code + [BranchItem(t, cond, if cond == Always then 0 else v, w.tr.loads)], w.tr)
  }

  function Then(a: Piece, b: Piece): Piece {
    Piece(a.code + b.code, b.tr)
  }

  /** The tracker after a 32-bit condition on `v`; it does not depend on the target. */
  function Tested(ls: nat, cond: Cond, v: Reg, tr: Ls): Ls {
    Branch32(ls, End, cond, v, tr).tr
  }

  /** A forward branch over `over`, which starts from the tracker `Tested` leaves. */
  function Over(ls: nat, cond: Cond, v: Reg, tr: Ls, over: Piece): Piece {
    Then(Branch32(ls, Ahead(|over.code|), cond, v, tr), over)
  }

  /** Signed 64-bit conditions out of 32-bit branches on the two halves. */
  function Branch64(ls: nat, t: Target, cond: Cond, v: Reg, tr: Ls): Piece {
    var lo, hi := v, v + 1;
    match cond
    case Always => Branch32(ls, t, Always, 0, tr)
    case LEqual =>
      var t1 := Tested(ls, Less, hi, tr);
      var t2 := Tested(ls, NEqual, hi, t1);
      Then(Branch32(ls, t, Less, hi, tr), Over(ls, NEqual, hi, t1, Branch32(ls, t, Equal, lo, t2)))
    case Greater =>
      var t1 := Tested(ls, Less, hi, tr);
      var t2 := Tested(ls, NEqual, hi, t1);
      Over(ls, Less, hi, tr, Then(Branch32(ls, t, NEqual, hi, t1), Branch32(ls, t, NEqual, lo, t2)))
    case GEqual => Over(ls, Less, hi, tr, Branch32(ls, t, Always, 0, Tested(ls, Less, hi, tr)))
    case Less => Branch32(ls, t, Less, hi, tr)
    case NEqual => Then(Branch32(ls, t, NEqual, lo, tr), Branch32(ls, t, NEqual, hi, Tested(ls, NEqual, lo, tr)))
    case Equal => Over(ls, NEqual, lo, tr, Branch32(ls, t, Equal, hi, Tested(ls, NEqual, lo, tr)))
  }

  function GenBranch(ls: nat, t: Target, cond: Cond, v: Val, tr: Ls): Piece {
    if v.wide then Branch64(ls, t, cond, v.reg, tr) else Branch32(ls, t, cond, v.reg, tr)
  }

  /** ALWAYS has no inverse; a well-formed program never asks for it. */
  function Invert(c: Cond): Cond {
    match c
    case Always => Always
    case LEqual => Greater
    case Equal => NEqual
    case Less => GEqual
    case Greater => LEqual
    case NEqual => Equal
    case GEqual => Less
  }

  /** What the builder carries from one statement to the next: the tracker, the tracker the last
      closed `if` left in `pending_if`, and whether that `if` may still be given an `else`. */
  datatype Ctx = Ctx(tr: Ls, ifLs: Ls, pend: bool)

  const FRESH: Ctx := Ctx(IDLE, IDLE, false)

  /** The code of a statement, the context after it, and the union of the trackers at its breaks
      and continues. `ok` fails when an assertion of the builder does. */
  datatype Out = Out(code: seq<Item>, ctx: Ctx, div: Ls, ok: bool)

  /** An `if` whose skipping branch is `p` and whose body came out as `x`. */
  function OutIf(p: Piece, x: Out): Out {
    Out(Resolve(p.code, |p.code| + |x.code|, 0) + x.code,
        Ctx(Join(p.tr, x.ctx.tr), x.ctx.tr, true),
        x.div,
        x.ok && !x.ctx.pend)
  }

  /** The `else` body starts from the tracker the closed `if` left behind. */
  function ElseCtx(p: Piece, x: Out): Ctx {
    Ctx(Join(p.tr, x.ctx.tr), x.ctx.tr, false)
  }

  /** The tracker after the `else` joins its own with the one in `pending_if`. */
  function OutIfElse(p: Piece, x: Out, y: Out): Out {
    Out(Resolve(p.code, |p.code| + |x.code| + 1, 0) + x.code + [Emit(Branch(|y.code|, Always, 0), x.ctx.tr.loads)]
        + y.code,
        Ctx(Join(y.ctx.ifLs, y.ctx.tr), y.ctx.ifLs, false),
        Join(x.div, y.div),
        x.ok && !x.ctx.pend && y.ok)
  }

  /** Before going round again the builder waits for loads the loop head does not know about. */
  function LoopWait(ls: nat, p: Piece, x: Out): Piece {
    WaitIf(ls, x.ctx.tr.loads - p.tr.loads != {}, x.ctx.tr)
  }

  function OutWhile(ls: nat, cond: Cond, v: Val, p: Piece, x: Out): Out {
    var w := LoopWait(ls, p, x);
    var q := GenBranch(ls, Start, cond, v, w.tr);
    var inner := p.code + x.code + w.code + q.code;
    Out(Resolve(inner, |inner|, |p.code|),
        Ctx(Join(Join(p.tr, x.div), q.tr), x.ctx.ifLs, false),
        IDLE,
        x.ok)
  }

  /** A maybe block waits for loads and stores of its own, so that the tracker it was entered with
      is right after it whether or not it is patched in. */
  function MaybeWait(ls: nat, orig: Ls, x: Out): Piece {
    WaitIf(ls, x.ctx.tr.loads - orig.loads != {} || (x.ctx.tr.stores && !orig.stores), x.ctx.tr)
  }

  function OutMaybe(ls: nat, patched: bool, orig: Ls, x: Out): Out {
    var inner := x.code + MaybeWait(ls, orig, x).code;
    Out(if patched then inner else Blank(|inner|, orig.loads),
        Ctx(orig, x.ctx.ifLs, false),
        x.div,
        x.ok && !x.ctx.pend)
  }

  /** `head` is the tracker at the start of the enclosing loop. */
  function Gen(ls: nat, s: Stmt, g: Ctx, head: Ls): Out
    decreases s
  {
    match s
    case Skip => Out([], g, IDLE, true)
    case Op(i) =>
      var p := GenOp(ls, i, g.tr);
      Out(p.code, g.(tr := p.tr, pend := false), IDLE, true)
    case FlushLoads =>
      var w := WaitIf(ls, g.tr.loads != {}, g.tr);
      Out(w.code, g.(tr := w.tr, pend := g.pend && w.code == []), IDLE, true)
    case FlushStores =>
      var w := WaitIf(ls, g.tr.stores, g.tr);
      Out(w.code, g.(tr := w.tr, pend := g.pend && w.code == []), IDLE, true)
    case Seq(a, b) =>
      var x := Gen(ls, a, g, head);
      var y := Gen(ls, b, x.ctx, head);
      Out(x.code + y.code, y.ctx, Join(x.div, y.div), x.ok && y.ok)
    case If(cond, v, t) =>
      var p := GenBranch(ls, End, Invert(cond), v, g.tr);
      OutIf(p, Gen(ls, t, Ctx(p.tr, g.ifLs, false), head))
    case IfElse(cond, v, t, e) =>
      var p := GenBranch(ls, End, Invert(cond), v, g.tr);
      var x := Gen(ls, t, Ctx(p.tr, g.ifLs, false), head);
      OutIfElse(p, x, Gen(ls, e, ElseCtx(p, x), head))
    case While(cond, v, body) =>
      var p := if cond == Always then Piece([], g.tr) else GenBranch(ls, End, Invert(cond), v, g.tr);
      OutWhile(ls, cond, v, p, Gen(ls, body, Ctx(p.tr, g.ifLs, false), p.tr))
    case BreakIf(cond, v) =>
      var q := GenBranch(ls, End, cond, v, g.tr);
      Out(q.code, Ctx(q.tr, g.ifLs, false), q.tr, true)
    case ContinueIf(cond, v) =>
      var w := WaitIf(ls, g.tr.loads - head.loads != {}, g.tr);
      var q := GenBranch(ls, Start, cond, v, w.tr);
      Out(w.code + q.code, Ctx(q.tr, g.ifLs, false), q.tr, true)
    case Match(v, scratch, cs) =>
      GenCases(ls, v, scratch, cs, true, g.tr, IDLE, g.(pend := false), head)
    case Maybe(patched, body) =>
      OutMaybe(ls, patched, g.tr, Gen(ls, body, g.(pend := false), head))
  }

  /** The test that opens a case: skip `n` instructions unless the subject equals `id`. `tr` is the
      tracker it is emitted under, `view` what may be in flight when control reaches it. */
  function GenTest(ls: nat, v: Reg, scratch: Reg, id: Word, n: nat, tr: Ls, view: set<Reg>): Piece {
    var sub := AddImm32(scratch, v, 0 - id);
    var need := if id == 0 then v in tr.loads else Clash(sub, tr.loads);
    var wait := if need then [Emit(Wait({ls}), view)] else [];
    var seen := if need then {} else view;
    Piece(wait + (if id == 0 then [Emit(Branch(n, NEqual, v), seen)]
                  else [Emit(sub, seen), Emit(Branch(n, NEqual, scratch), seen)]),
          if need then IDLE else tr)
  }

  /** `orig` is the tracker the match was entered with, `acc` the union over the cases closed so far
      and `g.tr` the tracker the next test is emitted under: `orig` itself for the first case, the
      previous case's tracker for the others. */
  function GenCases(ls: nat, v: Reg, scratch: Reg, cs: Cases, first: bool, orig: Ls, acc: Ls, g: Ctx, head: Ls): Out
    decreases cs
  {
    match cs
    case NoCase => Out([], g.(tr := Join(orig, acc), pend := false), IDLE, !g.pend)
    case Default(body) =>
      var x := Gen(ls, body, Ctx(orig, g.ifLs, false), head);
      Out(x.code, x.ctx.(tr := Join(acc, x.ctx.tr), pend := false), x.div, x.ok && !x.ctx.pend)
    case Case(id, body, rest) =>
      var view := if first then g.tr.loads else orig.loads;
      var p := GenTest(ls, v, scratch, id, 0, g.tr, view);
      var orig' := if first then p.tr else orig;
      var x := Gen(ls, body, Ctx(orig', g.ifLs, false), head);
      var y := GenCases(ls, v, scratch, rest, false, orig', Join(acc, x.ctx.tr), x.ctx, head);
      var tail := if rest.NoCase? then [] else [Emit(Branch(|y.code|, Always, 0), x.ctx.tr.loads)] + y.code;
      var skip := |x.code| + if rest.NoCase? then 0 else 1;
      Out(GenTest(ls, v, scratch, id, skip, g.tr, view).code + x.code + tail, y.ctx, Join(x.div, y.div), x.ok && y.ok)
  }
}
