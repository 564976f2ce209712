/** The tracker and stores: a flush that finds nothing to wait for finds no store in flight. */
module Stores {
  import opened Isa
  import opened Structured
  import opened Preservation
  import opened Tracker

  // ----- Stores in flight ----------------------------------------------------------------------------

  /** Whether a store is in flight after `i`, when one was before it or not. Waiting on the load/store slot completes
      them all. */
  ghost predicate Storing(ls: nat, i: Instr, before: bool) {
    match i
    case Store(_, _, mask, _) => before || true in mask
    case Wait(slots) => before && ls !in slots
    case _ => before
  }

  /** Whether a store is in flight when the last position of a path is reached. */
  ghost predicate StoreInFlight(ls: nat, p: seq<Instr>, pcs: seq<nat>, entry: bool)
    requires Path(p, pcs)
  {
    if |pcs| == 1 then entry
    else Storing(ls, p[pcs[|pcs| - 2]], StoreInFlight(ls, p, pcs[..|pcs| - 1], entry))
  }

  // ----- Marks -----------------------------------------------------------------------------------------

  /** Marks on the positions of a program, where a store may be in flight: instruction `pc` hands on no store to a
      position that is not marked. */
  ghost predicate Hands(ls: nat, p: seq<Instr>, m: int -> bool, pc: nat)
    requires pc < |p|
  {
    match p[pc]
    case Branch(rel, cond, _) => m(pc) ==> m(pc + 1 + rel) && (cond != Always ==> m(pc + 1))
    case Jump(_, _) => true
    case x => Storing(ls, x, m(pc)) ==> m(pc + 1)
  }

  ghost predicate HandsOn(ls: nat, p: seq<Instr>, m: int -> bool, lo: nat, hi: nat)
    ensures HandsOn(ls, p, m, lo, hi) ==> hi <= |p|
  {
    hi <= |p| && forall pc :: lo <= pc < hi ==> Hands(ls, p, m, pc)
  }

  /** Along a path no store gets where there is no mark. */
  lemma {:induction false} Marked(ls: nat, p: seq<Instr>, m: int -> bool, pcs: seq<nat>, entry: bool)
    requires HandsOn(ls, p, m, 0, |p|) && Path(p, pcs) && (entry ==> m(0))
    ensures StoreInFlight(ls, p, pcs, entry) ==> m(pcs[|pcs| - 1])
    decreases |pcs|
  {
    if |pcs| > 1 {
      var pre := pcs[..|pcs| - 1];
      Marked(ls, p, m, pre, entry);
      var pc := pre[|pre| - 1];
      assert Follows(p, pc, pcs[|pcs| - 1]) && Hands(ls, p, m, pc);
    }
  }

  /** `m` has its own marks from `lo` up to `hi`, at least where `carry` says, and those of `out` elsewhere. */
  ghost predicate Within(m: int -> bool, out: int -> bool, lo: int, hi: int, carry: bool) {
    && (forall pos :: lo <= pos < hi && carry ==> m(pos))
    && forall pos :: !(lo <= pos < hi) ==> m(pos) == out(pos)
  }

  /** The marks from outside do not reach into the stretch, except where stores are carried round a loop. */
  ghost predicate Bare(out: int -> bool, lo: int, hi: int, carry: bool) {
    forall pos :: lo <= pos < hi && out(pos) ==> carry
  }

  /** Marks in front of a stretch leave it as it was. */
  lemma Before(ls: nat, p: seq<Instr>, front: int -> bool, m: int -> bool, out: int -> bool, lo: nat, mid: nat, hi: nat,
               carry: bool)
    requires lo <= mid <= hi && HandsOn(ls, p, m, mid, hi) && HandsOn(ls, p, front, lo, mid)
    requires Within(m, out, mid, hi, carry) && Within(front, m, lo, mid, carry) && Bare(out, lo, hi, carry)
    ensures HandsOn(ls, p, front, lo, hi) && Within(front, out, lo, hi, carry)
  {
    forall pc | mid <= pc < hi ensures Hands(ls, p, front, pc) {
      assert Hands(ls, p, m, pc) && front(pc) == m(pc);
      assert forall pos :: m(pos) ==> front(pos);
    }
  }

  lemma BareBehind(b: int -> bool, out: int -> bool, lo: int, mid: int, hi: int, carry: bool)
    requires lo <= mid <= hi && Within(b, out, mid, hi, carry) && Bare(out, lo, hi, carry)
    ensures Bare(b, lo, mid, carry)
  {
  }

  // ----- Single instructions -----------------------------------------------------------------------

  /** One instruction, marked `here`. */
  function OneMark(out: int -> bool, at: int, here: bool): int -> bool {
    pos => if pos == at then here else out(pos)
  }

  lemma MarkOne(ls: nat, p: seq<Instr>, out: int -> bool, at: nat, here: bool, carry: bool)
    requires at < |p| && (carry ==> here)
    requires Hands(ls, p, OneMark(out, at, here), at)
    ensures Within(OneMark(out, at, here), out, at, at + 1, carry)
    ensures HandsOn(ls, p, OneMark(out, at, here), at, at + 1)
  {
  }

  lemma MarkWait(ls: nat, p: seq<Instr>, out: int -> bool, at: nat, need: bool, tr: Ls, carry: bool, end: int,
                 start: int)
    returns (m: int -> bool)
    requires Holding(p, at, WaitIf(ls, need, tr).code, end, start)
    requires WaitIf(ls, need, tr).tr.stores || carry ==> out(at + |WaitIf(ls, need, tr).code|)
    ensures var hi := at + |WaitIf(ls, need, tr).code|;
            Within(m, out, at, hi, carry) && HandsOn(ls, p, m, at, hi)
    ensures tr.stores || carry ==> m(at)
    ensures if need then m(at) <==> tr.stores || carry else m == out
  {
    m := out;
    if need {
      HoldingOne(p, at, Emit(Wait({ls}), tr.loads), end, start);
      m := OneMark(out, at, tr.stores || carry);
    }
  }

  lemma MarkOp(ls: nat, p: seq<Instr>, out: int -> bool, at: nat, i: Instr, tr: Ls, carry: bool, end: int, start: int)
    returns (m: int -> bool)
    requires Plain(i) && Holding(p, at, GenOp(ls, i, tr).code, end, start)
    requires Bare(out, at, at + |GenOp(ls, i, tr).code|, carry)
    requires GenOp(ls, i, tr).tr.stores || carry ==> out(at + |GenOp(ls, i, tr).code|)
    ensures var hi := at + |GenOp(ls, i, tr).code|;
            Within(m, out, at, hi, carry) && HandsOn(ls, p, m, at, hi)
    ensures tr.stores || carry <==> m(at)
  {
    hide Clash, Holding;
    var w := WaitIf(ls, Clash(i, tr.loads), tr);
    var mid := at + |w.code|;
    HoldingConcat(p, at, w.code, [Emit(i, w.tr.loads)], end, start);
    HoldingOne(p, mid, Emit(i, w.tr.loads), end, start);
    var b := OneMark(out, mid, w.tr.stores || carry);
    MarkOne(ls, p, out, mid, w.tr.stores || carry, carry);
    m := MarkWait(ls, p, b, at, Clash(i, tr.loads), tr, carry, end, start);
    BareBehind(b, out, at, mid, mid + 1, carry);
    Before(ls, p, m, b, out, at, mid, mid + 1, carry);
  }

  // ----- Conditions ----------------------------------------------------------------------------------

  /** A WAIT, or a branch to `t` or ahead inside the piece. */
  ghost predicate Fork(x: Item, ls: nat, t: Target, left: nat) {
    match x
    case Emit(i, _) => i == Wait({ls}) || (i.Branch? && 0 <= i.rel <= left)
    case ToEnd(_, _, _) => t == End
    case ToStart(_, _, _) => t == Start
  }

  ghost predicate Forks(code: seq<Item>, ls: nat, t: Target, tr: Ls, left: nat) {
    forall k :: 0 <= k < |code| ==>
      && Fork(code[k], ls, t, left + |code| - k - 1)
      && (code[k].loads == tr.loads || code[k].loads == {})
  }

  lemma ForksConcat(a: seq<Item>, b: seq<Item>, ls: nat, t: Target, tr: Ls, left: nat)
    requires Forks(a, ls, t, tr, left + |b|) && Forks(b, ls, t, tr, left)
    ensures Forks(a + b, ls, t, tr, left)
  {
    var c := a + b;
    forall k | 0 <= k < |c|
      ensures Fork(c[k], ls, t, left + |c| - k - 1) && (c[k].loads == tr.loads || c[k].loads == {})
    {
      assert c[k] == if k < |a| then a[k] else b[k - |a|];
    }
  }

  lemma Forks32(ls: nat, t: Target, to: Target, cond: Cond, v: Reg, tr: Ls, now: Ls, left: nat)
    requires !t.Ahead? && (to == t || (to.Ahead? && to.n <= left)) && (now == tr || now == IDLE)
    ensures Forks(Branch32(ls, to, cond, v, now).code, ls, t, tr, left)
    ensures var after := Branch32(ls, to, cond, v, now).tr; after == tr || after == IDLE
  {
  }

  /** Every piece of a condition is a WAIT or a branch, and is emitted under the tracker the condition starts with or
      behind a WAIT. */
  lemma BranchForks(ls: nat, t: Target, cond: Cond, v: Val, tr: Ls)
    requires !t.Ahead?
    ensures Forks(GenBranch(ls, t, cond, v, tr).code, ls, t, tr, 0)
  {
    hide Forks, Branch32;
    if !v.wide {
      Forks32(ls, t, t, cond, v.reg, tr, tr, 0);
    } else {
      Forks64(ls, t, cond, v.reg, tr);
    }
  }

  lemma Forks64(ls: nat, t: Target, cond: Cond, v: Reg, tr: Ls)
    requires !t.Ahead?
    ensures Forks(Branch64(ls, t, cond, v, tr).code, ls, t, tr, 0)
  {
    hide Forks, Branch32;
    var lo, hi := v, v + 1;
    var t1 := Tested(ls, if cond == NEqual || cond == Equal then NEqual else Less,
                     if cond == NEqual || cond == Equal then lo else hi, tr);
    var t2 := Tested(ls, NEqual, hi, t1);
    TestedForks(ls, if cond == NEqual || cond == Equal then NEqual else Less,
                if cond == NEqual || cond == Equal then lo else hi, tr, tr);
    TestedForks(ls, NEqual, hi, tr, t1);
    match cond
    case Always => Forks32(ls, t, t, Always, 0, tr, tr, 0);
    case Less => Forks32(ls, t, t, Less, hi, tr, tr, 0);
    case LEqual =>
      var first, last := Branch32(ls, t, Less, hi, tr), Branch32(ls, t, Equal, lo, t2);
      var skip := Branch32(ls, Ahead(|last.code|), NEqual, hi, t1);
      Forks32(ls, t, t, Less, hi, tr, tr, |skip.code + last.code|);
      Forks32(ls, t, Ahead(|last.code|), NEqual, hi, tr, t1, |last.code|);
      Forks32(ls, t, t, Equal, lo, tr, t2, 0);
      ForksConcat(skip.code, last.code, ls, t, tr, 0);
      ForksConcat(first.code, skip.code + last.code, ls, t, tr, 0);
    case Greater =>
      var mid, last := Branch32(ls, t, NEqual, hi, t1), Branch32(ls, t, NEqual, lo, t2);
      var over := mid.code + last.code;
      Forks32(ls, t, Ahead(|over|), Less, hi, tr, tr, |over|);
      Forks32(ls, t, t, NEqual, hi, tr, t1, |last.code|);
      Forks32(ls, t, t, NEqual, lo, tr, t2, 0);
      ForksConcat(mid.code, last.code, ls, t, tr, 0);
      ForksConcat(Branch32(ls, Ahead(|over|), Less, hi, tr).code, over, ls, t, tr, 0);
    case GEqual =>
      var last := Branch32(ls, t, Always, 0, t1).code;
      Forks32(ls, t, t, Always, 0, tr, t1, 0);
      Forks32(ls, t, Ahead(|last|), Less, hi, tr, tr, |last|);
      ForksConcat(Branch32(ls, Ahead(|last|), Less, hi, tr).code, last, ls, t, tr, 0);
    case NEqual =>
      var last := Branch32(ls, t, NEqual, hi, t1).code;
      Forks32(ls, t, t, NEqual, hi, tr, t1, 0);
      Forks32(ls, t, t, NEqual, lo, tr, tr, |last|);
      ForksConcat(Branch32(ls, t, NEqual, lo, tr).code, last, ls, t, tr, 0);
    case Equal =>
      var last := Branch32(ls, t, Equal, hi, t1).code;
      Forks32(ls, t, t, Equal, hi, tr, t1, 0);
      Forks32(ls, t, Ahead(|last|), NEqual, lo, tr, tr, |last|);
      ForksConcat(Branch32(ls, Ahead(|last|), NEqual, lo, tr).code, last, ls, t, tr, 0);
  }

  lemma TestedForks(ls: nat, cond: Cond, v: Reg, tr: Ls, now: Ls)
    requires now == tr || now == IDLE
    ensures Tested(ls, cond, v, now) == tr || Tested(ls, cond, v, now) == IDLE
  {
  }

  /** A 64-bit condition may wait for its second half between its branches; a store that was in flight before it still
      is on the way out by the first branch. Without a store, it does not matter. */
  predicate SplitKeeps(cond: Cond, v: Val, tr: Ls) {
    tr.stores ==> SplitOk(cond, v, tr)
  }

  /** The marks of a condition: those of the tracker it starts with, up to the WAIT if there is one. */
  function BranchMarks(out: int -> bool, at: int, code: seq<Item>, tr: Ls, after: Ls, carry: bool): int -> bool {
    pos => if at <= pos < at + |code|
           then after.stores || carry || (tr.stores && code[pos - at].loads == tr.loads) else out(pos)
  }

  lemma MarkBranch(ls: nat, p: seq<Instr>, out: int -> bool, at: nat, t: Target, cond: Cond, v: Val, tr: Ls,
                   carry: bool, end: int, start: int)
    returns (m: int -> bool)
    requires !t.Ahead? && SplitKeeps(cond, v, tr) && Holding(p, at, GenBranch(ls, t, cond, v, tr).code, end, start)
    requires Bare(out, at, at + |GenBranch(ls, t, cond, v, tr).code|, carry)
    requires var q := GenBranch(ls, t, cond, v, tr);
             q.tr.stores || carry ==> out(at + |q.code|) && out(if t == End then end else start)
    ensures var hi := at + |GenBranch(ls, t, cond, v, tr).code|;
            Within(m, out, at, hi, carry) && HandsOn(ls, p, m, at, hi)
    ensures tr.stores || carry ==> m(at)
  {
    hide GenBranch, SplitOk, WaysOut;
    var q := GenBranch(ls, t, cond, v, tr);
    var hi := at + |q.code|;
    AfterBranch(ls, t, cond, v, tr);
    BranchForks(ls, t, cond, v, tr);
    OpeningBranch(ls, t, cond, v, tr);
    ConditionExact(ls, t, cond, v, tr);
    m := BranchMarks(out, at, q.code, tr, q.tr, carry);
    forall pc | at <= pc < hi ensures Hands(ls, p, m, pc) {
      HandsFork(ls, p, out, at, t, q, tr, carry, end, start, pc);
    }
  }

  lemma HandsFork(ls: nat, p: seq<Instr>, out: int -> bool, at: nat, t: Target, q: Piece, tr: Ls, carry: bool, end: int,
                  start: int, pc: nat)
    requires !t.Ahead? && Holding(p, at, q.code, end, start) && at <= pc < at + |q.code|
    requires Forks(q.code, ls, t, tr, 0) && (tr.stores && !q.tr.stores ==> tr.loads != {} && WaysOut(q.code, {}))
    requires q.tr.stores || carry ==> out(at + |q.code|) && out(if t == End then end else start)
    ensures Hands(ls, p, BranchMarks(out, at, q.code, tr, q.tr, carry), pc)
  {
    var m := BranchMarks(out, at, q.code, tr, q.tr, carry);
    var x := q.code[pc - at];
    assert p[at + (pc - at)] == Place(x, pc, end, start);
    assert Fork(x, ls, t, |q.code| - (pc - at) - 1);
    if m(pc) && !(x.Emit? && x.i.Wait?) {
      assert q.tr.stores || carry;
    }
  }

  // ----- Statements ------------------------------------------------------------------------------------

  /** When the tracker keeps the stores of a program: no 64-bit condition waits between its branches while a store is
      in flight, and after an `else` the tracker knows of the stores of its `if`. Loops, matches and maybe blocks ask
      for nothing. */
  predicate StoresKept(ls: nat, s: Stmt, g: Ctx, head: Ls)
    decreases s
  {
    match s
    case Seq(a, b) => StoresKept(ls, a, g, head) && StoresKept(ls, b, Gen(ls, a, g, head).ctx, head)
    case If(cond, v, t) =>
      var q := GenBranch(ls, End, Invert(cond), v, g.tr);
      SplitKeeps(Invert(cond), v, g.tr) && StoresKept(ls, t, Ctx(q.tr, g.ifLs, false), head)
    case IfElse(cond, v, t, e) =>
      var q := GenBranch(ls, End, Invert(cond), v, g.tr);
      var x := Gen(ls, t, Ctx(q.tr, g.ifLs, false), head);
      && SplitKeeps(Invert(cond), v, g.tr)
      && StoresKept(ls, t, Ctx(q.tr, g.ifLs, false), head)
      && StoresKept(ls, e, ElseCtx(q, x), head)
      && ElseKeeps(x, Gen(ls, e, ElseCtx(q, x), head))
    case While(cond, v, body) =>
      var q := if cond == Always then Piece([], g.tr) else GenBranch(ls, End, Invert(cond), v, g.tr);
      var g1 := Ctx(q.tr, g.ifLs, false);
      && (cond == Always || SplitKeeps(Invert(cond), v, g.tr))
      && StoresKept(ls, body, g1, q.tr)
      && SplitKeeps(cond, v, LoopWait(ls, q, Gen(ls, body, g1, q.tr)).tr)
    case BreakIf(cond, v) => SplitKeeps(cond, v, g.tr)
    case ContinueIf(cond, v) => SplitKeeps(cond, v, WaitIf(ls, g.tr.loads - head.loads != {}, g.tr).tr)
    case Match(v, scratch, cs) => StoresKeptCases(ls, v, scratch, cs, true, g.tr, IDLE, g.(pend := false), head)
    case Maybe(_, body) => StoresKept(ls, body, g.(pend := false), head)
    case _ => true
  }

  /** What `pending_if` holds behind an `else`, and the tracker of its body, know of the stores of the `if` body. */
  predicate ElseKeeps(x: Out, y: Out) {
    x.ctx.tr.stores ==> y.ctx.ifLs.stores || y.ctx.tr.stores
  }

  predicate StoresKeptCases(ls: nat, v: Reg, scratch: Reg, cs: Cases, first: bool, orig: Ls, acc: Ls, g: Ctx, head: Ls)
    decreases cs
  {
    match cs
    case NoCase => true
    case Default(body) => StoresKept(ls, body, Ctx(orig, g.ifLs, false), head)
    case Case(id, body, rest) =>
      var q := GenTest(ls, v, scratch, id, 0, g.tr, if first then g.tr.loads else orig.loads);
      var orig' := if first then q.tr else orig;
      var x := Gen(ls, body, Ctx(orig', g.ifLs, false), head);
      && StoresKept(ls, body, Ctx(orig', g.ifLs, false), head)
      && StoresKeptCases(ls, v, scratch, rest, false, orig', Join(acc, x.ctx.tr), x.ctx, head)
  }

  /** The ways out of a statement are marked where its trackers know of a store. */
  ghost predicate Ways(out: int -> bool, after: int, o: Out, carry: bool, brk: bool, end: int, cont: bool, start: int) {
    && (o.ctx.tr.stores || carry ==> out(after))
    && (brk && (o.div.stores || carry) ==> out(end))
    && (cont && (o.div.stores || carry) ==> out(start))
  }

  /** The code of the statement begins with a plain instruction, and what that one waits for. */
  predicate Begins(s: Stmt) {
    s.Op? || (s.Seq? && Begins(s.first))
  }

  lemma {:induction false} BeginsCode(ls: nat, s: Stmt, g: Ctx, head: Ls)
    requires Begins(s)
    ensures Gen(ls, s, g, head).code != []
    decreases s
  {
    if s.Seq? { BeginsCode(ls, s.first, g, head); }
  }

  /** The places of the instructions right behind a flush of the stores; `round` says that an enclosing loop hands a
      store round, and then they are not counted. */
  ghost function Fenced(ls: nat, s: Stmt, g: Ctx, head: Ls, at: nat, round: bool): set<nat>
    decreases s
  {
    match s
    case Seq(a, b) =>
      var x := Gen(ls, a, g, head);
      (if a.FlushStores? && Begins(b) && !round then {at + |x.code|} else {})
      + Fenced(ls, a, g, head, at, round) + Fenced(ls, b, x.ctx, head, at + |x.code|, round)
    case If(cond, v, t) =>
      var q := GenBranch(ls, End, Invert(cond), v, g.tr);
      Fenced(ls, t, Ctx(q.tr, g.ifLs, false), head, at + |q.code|, round)
    case IfElse(cond, v, t, e) =>
      var q := GenBranch(ls, End, Invert(cond), v, g.tr);
      var x := Gen(ls, t, Ctx(q.tr, g.ifLs, false), head);
      Fenced(ls, t, Ctx(q.tr, g.ifLs, false), head, at + |q.code|, round)
      + Fenced(ls, e, ElseCtx(q, x), head, at + |q.code| + |x.code| + 1, round)
    case While(cond, v, body) =>
      var q := if cond == Always then Piece([], g.tr) else GenBranch(ls, End, Invert(cond), v, g.tr);
      var g1 := Ctx(q.tr, g.ifLs, false);
      Fenced(ls, body, g1, q.tr, at + |q.code|, round || Round(ls, cond, v, q, Gen(ls, body, g1, q.tr)))
    case Match(v, scratch, cs) =>
      FencedCases(ls, v, scratch, cs, true, g.tr, IDLE, g.(pend := false), head, at, round)
    case Maybe(patched, body) => if patched then Fenced(ls, body, g.(pend := false), head, at, round) else {}
    case _ => {}
  }

  ghost function FencedCases(ls: nat, v: Reg, scratch: Reg, cs: Cases, first: bool, orig: Ls, acc: Ls, g: Ctx, head: Ls,
                             at: nat, round: bool): set<nat>
    decreases cs
  {
    match cs
    case NoCase => {}
    case Default(body) => Fenced(ls, body, Ctx(orig, g.ifLs, false), head, at, round)
    case Case(id, body, rest) =>
      var q := GenTest(ls, v, scratch, id, 0, g.tr, if first then g.tr.loads else orig.loads);
      var orig' := if first then q.tr else orig;
      var x := Gen(ls, body, Ctx(orig', g.ifLs, false), head);
      var b := at + |q.code|;
      Fenced(ls, body, Ctx(orig', g.ifLs, false), head, b, round)
      + FencedCases(ls, v, scratch, rest, false, orig', Join(acc, x.ctx.tr), x.ctx, head,
                    b + |x.code| + (if rest.NoCase? then 0 else 1), round)
  }

  /** A loop hands a store round: one is pending on its back branch or at a `continue`. (A `break` counts as well.) */
  predicate Round(ls: nat, cond: Cond, v: Val, q: Piece, x: Out) {
    x.div.stores || GenBranch(ls, Start, cond, v, LoopWait(ls, q, x).tr).tr.stores
  }

  /** No mark right behind a flush. */
  ghost predicate Fences(ls: nat, m: int -> bool, s: Stmt, g: Ctx, head: Ls, at: nat, carry: bool) {
    && (Begins(s) && !g.tr.stores && !carry ==> !m(at))
    && forall pos: nat :: pos in Fenced(ls, s, g, head, at, carry) ==>
         at <= pos < at + |Gen(ls, s, g, head).code| && !m(pos)
  }

  ghost predicate FencesCases(ls: nat, m: int -> bool, v: Reg, scratch: Reg, cs: Cases, first: bool, orig: Ls, acc: Ls,
                              g: Ctx, head: Ls, at: nat, carry: bool)
  {
    forall pos: nat :: pos in FencedCases(ls, v, scratch, cs, first, orig, acc, g, head, at, carry) ==>
      at <= pos < at + |GenCases(ls, v, scratch, cs, first, orig, acc, g, head).code| && !m(pos)
  }

  /** Marks elsewhere do not matter. */
  lemma FencesStay(ls: nat, n: int -> bool, m: int -> bool, s: Stmt, g: Ctx, head: Ls, at: nat, carry: bool)
    requires Fences(ls, n, s, g, head, at, carry)
    requires forall pos :: at <= pos < at + |Gen(ls, s, g, head).code| ==> m(pos) == n(pos)
    ensures Fences(ls, m, s, g, head, at, carry)
  {
    hide Gen, Fenced;
    if Begins(s) { BeginsCode(ls, s, g, head); }
  }

  lemma FencesCasesStay(ls: nat, n: int -> bool, m: int -> bool, v: Reg, scratch: Reg, cs: Cases, first: bool, orig: Ls,
                        acc: Ls, g: Ctx, head: Ls, at: nat, carry: bool)
    requires FencesCases(ls, n, v, scratch, cs, first, orig, acc, g, head, at, carry)
    requires forall pos :: at <= pos < at + |GenCases(ls, v, scratch, cs, first, orig, acc, g, head).code| ==>
               m(pos) == n(pos)
    ensures FencesCases(ls, m, v, scratch, cs, first, orig, acc, g, head, at, carry)
  {
    hide GenCases, FencedCases;
  }

  lemma FencedSeq(ls: nat, a: Stmt, b: Stmt, g: Ctx, head: Ls, at: nat, round: bool)
    ensures var x := Gen(ls, a, g, head);
            Fenced(ls, Seq(a, b), g, head, at, round)
            == (if a.FlushStores? && Begins(b) && !round then {at + |x.code|} else {})
               + Fenced(ls, a, g, head, at, round) + Fenced(ls, b, x.ctx, head, at + |x.code|, round)
  {
    hide Gen, Begins;
  }

  lemma FencedIf(ls: nat, cond: Cond, v: Val, t: Stmt, g: Ctx, head: Ls, at: nat, round: bool)
    ensures var q := GenBranch(ls, End, Invert(cond), v, g.tr);
            Fenced(ls, If(cond, v, t), g, head, at, round)
            == Fenced(ls, t, Ctx(q.tr, g.ifLs, false), head, at + |q.code|, round)
  {
    hide Gen, GenBranch;
  }

  lemma FencedIfElse(ls: nat, cond: Cond, v: Val, t: Stmt, e: Stmt, g: Ctx, head: Ls, at: nat, round: bool)
    ensures var q := GenBranch(ls, End, Invert(cond), v, g.tr);
            var x := Gen(ls, t, Ctx(q.tr, g.ifLs, false), head);
            Fenced(ls, IfElse(cond, v, t, e), g, head, at, round)
            == Fenced(ls, t, Ctx(q.tr, g.ifLs, false), head, at + |q.code|, round)
               + Fenced(ls, e, ElseCtx(q, x), head, at + |q.code| + |x.code| + 1, round)
  {
    hide Gen, GenBranch, ElseCtx;
  }

  lemma FencedWhile(ls: nat, cond: Cond, v: Val, body: Stmt, g: Ctx, head: Ls, at: nat, round: bool)
    ensures var q := if cond == Always then Piece([], g.tr) else GenBranch(ls, End, Invert(cond), v, g.tr);
            var g1 := Ctx(q.tr, g.ifLs, false);
            Fenced(ls, While(cond, v, body), g, head, at, round)
            == Fenced(ls, body, g1, q.tr, at + |q.code|, round || Round(ls, cond, v, q, Gen(ls, body, g1, q.tr)))
  {
    hide Gen, GenBranch, Round;
  }

  lemma FencedMaybe(ls: nat, patched: bool, body: Stmt, g: Ctx, head: Ls, at: nat, round: bool)
    ensures Fenced(ls, Maybe(patched, body), g, head, at, round)
         == if patched then Fenced(ls, body, g.(pend := false), head, at, round) else {}
  {
  }

  lemma FencedMatch(ls: nat, v: Reg, scratch: Reg, cs: Cases, g: Ctx, head: Ls, at: nat, round: bool)
    ensures Fenced(ls, Match(v, scratch, cs), g, head, at, round)
         == FencedCases(ls, v, scratch, cs, true, g.tr, IDLE, g.(pend := false), head, at, round)
  {
  }

  lemma FencedCase(ls: nat, v: Reg, scratch: Reg, id: Word, body: Stmt, rest: Cases, first: bool, orig: Ls, acc: Ls,
                   g: Ctx, head: Ls, at: nat, round: bool)
    ensures var q := GenTest(ls, v, scratch, id, 0, g.tr, if first then g.tr.loads else orig.loads);
            var orig' := if first then q.tr else orig;
            var x := Gen(ls, body, Ctx(orig', g.ifLs, false), head);
            var b := at + |q.code|;
            FencedCases(ls, v, scratch, Case(id, body, rest), first, orig, acc, g, head, at, round)
            == Fenced(ls, body, Ctx(orig', g.ifLs, false), head, b, round)
               + FencedCases(ls, v, scratch, rest, false, orig', Join(acc, x.ctx.tr), x.ctx, head,
                             b + |x.code| + (if rest.NoCase? then 0 else 1), round)
  {
    hide Gen, GenTest;
  }

  lemma SeqCode(ls: nat, a: Stmt, b: Stmt, g: Ctx, head: Ls)
    ensures var x := Gen(ls, a, g, head);
            && Gen(ls, Seq(a, b), g, head).code == x.code + Gen(ls, b, x.ctx, head).code
            && (a.FlushStores? ==> !x.ctx.tr.stores)
  {
  }

  lemma FencesSeq(ls: nat, m: int -> bool, a: Stmt, b: Stmt, g: Ctx, head: Ls, at: nat, carry: bool)
    requires Fences(ls, m, a, g, head, at, carry)
    requires var x := Gen(ls, a, g, head); Fences(ls, m, b, x.ctx, head, at + |x.code|, carry)
    ensures Fences(ls, m, Seq(a, b), g, head, at, carry)
  {
    hide Gen, Fenced;
    FencedSeq(ls, a, b, g, head, at, carry);
    var x := Gen(ls, a, g, head);
    var y := Gen(ls, b, x.ctx, head);
    SeqCode(ls, a, b, g, head);
    if Begins(b) { BeginsCode(ls, b, x.ctx, head); }
    forall pos: nat | pos in Fenced(ls, Seq(a, b), g, head, at, carry)
      ensures at <= pos < at + |x.code + y.code| && !m(pos)
    {}
  }

  lemma FencesIf(ls: nat, m: int -> bool, cond: Cond, v: Val, t: Stmt, g: Ctx, head: Ls, at: nat, carry: bool)
    requires var q := GenBranch(ls, End, Invert(cond), v, g.tr);
             Fences(ls, m, t, Ctx(q.tr, g.ifLs, false), head, at + |q.code|, carry)
    ensures Fences(ls, m, If(cond, v, t), g, head, at, carry)
  {
    hide GenBranch, Fenced;
    FencedIf(ls, cond, v, t, g, head, at, carry);
    var q := GenBranch(ls, End, Invert(cond), v, g.tr);
    var g1 := Ctx(q.tr, g.ifLs, false);
    var x := Gen(ls, t, g1, head);
    assert Gen(ls, If(cond, v, t), g, head) == OutIf(q, x) && |OutIf(q, x).code| == |q.code| + |x.code|;
    hide Gen, OutIf;
    forall pos: nat | pos in Fenced(ls, If(cond, v, t), g, head, at, carry)
      ensures at <= pos < at + |q.code| + |x.code| && !m(pos)
    {}
  }

  lemma FencesIfElse(ls: nat, m: int -> bool, cond: Cond, v: Val, t: Stmt, e: Stmt, g: Ctx, head: Ls, at: nat,
                     carry: bool)
    requires var q := GenBranch(ls, End, Invert(cond), v, g.tr);
             var x := Gen(ls, t, Ctx(q.tr, g.ifLs, false), head);
             && Fences(ls, m, t, Ctx(q.tr, g.ifLs, false), head, at + |q.code|, carry)
             && Fences(ls, m, e, ElseCtx(q, x), head, at + |q.code| + |x.code| + 1, carry)
    ensures Fences(ls, m, IfElse(cond, v, t, e), g, head, at, carry)
  {
    hide GenBranch, ElseCtx, Fenced;
    FencedIfElse(ls, cond, v, t, e, g, head, at, carry);
    var q := GenBranch(ls, End, Invert(cond), v, g.tr);
    var x := Gen(ls, t, Ctx(q.tr, g.ifLs, false), head);
    var y := Gen(ls, e, ElseCtx(q, x), head);
    assert Gen(ls, IfElse(cond, v, t, e), g, head) == OutIfElse(q, x, y);
    assert |OutIfElse(q, x, y).code| == |q.code| + |x.code| + 1 + |y.code|;
    hide Gen, OutIfElse;
    var e0 := at + |q.code| + |x.code| + 1;
    forall pos: nat | pos in Fenced(ls, IfElse(cond, v, t, e), g, head, at, carry)
      ensures at <= pos < e0 + |y.code| && !m(pos)
    {}
  }

  lemma FencesWhile(ls: nat, m: int -> bool, cond: Cond, v: Val, body: Stmt, g: Ctx, head: Ls, at: nat, carry: bool)
    requires var q := if cond == Always then Piece([], g.tr) else GenBranch(ls, End, Invert(cond), v, g.tr);
             var g1 := Ctx(q.tr, g.ifLs, false);
             Fences(ls, m, body, g1, q.tr, at + |q.code|, carry || Round(ls, cond, v, q, Gen(ls, body, g1, q.tr)))
    ensures Fences(ls, m, While(cond, v, body), g, head, at, carry)
  {
    hide GenBranch, Round, Fenced;
    FencedWhile(ls, cond, v, body, g, head, at, carry);
    var q := if cond == Always then Piece([], g.tr) else GenBranch(ls, End, Invert(cond), v, g.tr);
    var x := Gen(ls, body, Ctx(q.tr, g.ifLs, false), q.tr);
    assert Gen(ls, While(cond, v, body), g, head) == OutWhile(ls, cond, v, q, x);
    assert |OutWhile(ls, cond, v, q, x).code| >= |q.code| + |x.code|;
    hide Gen, OutWhile;
    var round := carry || Round(ls, cond, v, q, x);
    forall pos: nat | pos in Fenced(ls, While(cond, v, body), g, head, at, carry)
      ensures at <= pos < at + |q.code| + |x.code| && !m(pos)
    {}
  }

  lemma FencesMaybe(ls: nat, m: int -> bool, patched: bool, body: Stmt, g: Ctx, head: Ls, at: nat, carry: bool)
    requires patched ==> Fences(ls, m, body, g.(pend := false), head, at, carry)
    ensures Fences(ls, m, Maybe(patched, body), g, head, at, carry)
  {
    hide Fenced;
    FencedMaybe(ls, patched, body, g, head, at, carry);
    var x := Gen(ls, body, g.(pend := false), head);
    assert |OutMaybe(ls, patched, g.tr, x).code| >= |x.code|;
    assert Gen(ls, Maybe(patched, body), g, head) == OutMaybe(ls, patched, g.tr, x);
    hide Gen, OutMaybe;
    forall pos: nat | pos in Fenced(ls, Maybe(patched, body), g, head, at, carry)
      ensures at <= pos < at + |x.code| && !m(pos)
    {}
  }

  lemma FencesMatch(ls: nat, m: int -> bool, v: Reg, scratch: Reg, cs: Cases, g: Ctx, head: Ls, at: nat, carry: bool)
    requires FencesCases(ls, m, v, scratch, cs, true, g.tr, IDLE, g.(pend := false), head, at, carry)
    ensures Fences(ls, m, Match(v, scratch, cs), g, head, at, carry)
  {
    hide GenCases, FencedCases, Fenced;
    FencedMatch(ls, v, scratch, cs, g, head, at, carry);
    var o := GenCases(ls, v, scratch, cs, true, g.tr, IDLE, g.(pend := false), head);
    forall pos: nat | pos in Fenced(ls, Match(v, scratch, cs), g, head, at, carry)
      ensures at <= pos < at + |o.code| && !m(pos)
    {}
  }

  lemma FencesCase(ls: nat, m: int -> bool, v: Reg, scratch: Reg, id: Word, body: Stmt, rest: Cases, first: bool,
                   orig: Ls, acc: Ls, g: Ctx, head: Ls, at: nat, carry: bool)
    requires first ==> orig == g.tr
    requires var view := if first then g.tr.loads else orig.loads;
             var orig' := if first then GenTest(ls, v, scratch, id, 0, g.tr, view).tr else orig;
             var g1 := Ctx(orig', g.ifLs, false);
             var x := Gen(ls, body, g1, head);
             var b := at + |GenTest(ls, v, scratch, id, 0, g.tr, view).code|;
             && Fences(ls, m, body, g1, head, b, carry)
             && FencesCases(ls, m, v, scratch, rest, false, orig', Join(acc, x.ctx.tr), x.ctx, head,
                            b + |x.code| + (if rest.NoCase? then 0 else 1), carry)
    ensures FencesCases(ls, m, v, scratch, Case(id, body, rest), first, orig, acc, g, head, at, carry)
  {
    hide Gen, GenTest, GenCases, Fenced, FencedCases;
    FencedCase(ls, v, scratch, id, body, rest, first, orig, acc, g, head, at, carry);
    var view := if first then g.tr.loads else orig.loads;
    var q := GenTest(ls, v, scratch, id, 0, g.tr, view);
    var orig' := if first then q.tr else orig;
    var x := Gen(ls, body, Ctx(orig', g.ifLs, false), head);
    var y := GenCases(ls, v, scratch, rest, false, orig', Join(acc, x.ctx.tr), x.ctx, head);
    CaseStores(ls, v, scratch, id, body, rest, first, orig, acc, g, head);
    TestSize(ls, v, scratch, id, |x.code| + (if rest.NoCase? then 0 else 1), g.tr, view);
    var r := at + |q.code| + |x.code| + if rest.NoCase? then 0 else 1;
    if rest.NoCase? { NoCaseCode(ls, v, scratch, orig', Join(acc, x.ctx.tr), x.ctx, head); }
    forall pos: nat | pos in FencedCases(ls, v, scratch, Case(id, body, rest), first, orig, acc, g, head, at, carry)
      ensures at <= pos < r + |y.code| && !m(pos)
    {}
  }

  lemma NoCaseCode(ls: nat, v: Reg, scratch: Reg, orig: Ls, acc: Ls, g: Ctx, head: Ls)
    ensures GenCases(ls, v, scratch, NoCase, false, orig, acc, g, head).code == []
  {
  }

  lemma FencesDefault(ls: nat, m: int -> bool, v: Reg, scratch: Reg, body: Stmt, first: bool, orig: Ls, acc: Ls,
                      g: Ctx, head: Ls, at: nat, carry: bool)
    requires Fences(ls, m, body, Ctx(orig, g.ifLs, false), head, at, carry)
    ensures FencesCases(ls, m, v, scratch, Default(body), first, orig, acc, g, head, at, carry)
  {
    hide Gen, Fenced;
    var x := Gen(ls, body, Ctx(orig, g.ifLs, false), head);
    assert |GenCases(ls, v, scratch, Default(body), first, orig, acc, g, head).code| == |x.code|;
    assert FencedCases(ls, v, scratch, Default(body), first, orig, acc, g, head, at, carry)
            == Fenced(ls, body, Ctx(orig, g.ifLs, false), head, at, carry);
    hide GenCases, FencedCases;
  }

  /** The test in front and the body leave what is behind them alone. */
  lemma FencesInCase(ls: nat, n: int -> bool, l: int -> bool, m: int -> bool, v: Reg, scratch: Reg, id: Word,
                     body: Stmt, rest: Cases, first: bool, orig: Ls, acc: Ls, g: Ctx, head: Ls, at: nat, carry: bool)
    requires first ==> orig == g.tr
    requires var view := if first then g.tr.loads else orig.loads;
             var orig' := if first then GenTest(ls, v, scratch, id, 0, g.tr, view).tr else orig;
             var g1 := Ctx(orig', g.ifLs, false);
             var x := Gen(ls, body, g1, head);
             var k := |x.code| + if rest.NoCase? then 0 else 1;
             var b := at + |GenTest(ls, v, scratch, id, k, g.tr, view).code|;
             && Fences(ls, l, body, g1, head, b, carry) && (forall pos :: b <= pos ==> m(pos) == l(pos))
             && FencesCases(ls, n, v, scratch, rest, false, orig', Join(acc, x.ctx.tr), x.ctx, head, b + k, carry)
             && forall pos :: b + |x.code| <= pos ==> l(pos) == n(pos)
    ensures FencesCases(ls, m, v, scratch, Case(id, body, rest), first, orig, acc, g, head, at, carry)
  {
    hide Gen, GenTest, GenCases, Fences, FencesCases;
    var view := if first then g.tr.loads else orig.loads;
    var orig' := if first then GenTest(ls, v, scratch, id, 0, g.tr, view).tr else orig;
    var g1 := Ctx(orig', g.ifLs, false);
    var x := Gen(ls, body, g1, head);
    var k := |x.code| + if rest.NoCase? then 0 else 1;
    var b := at + |GenTest(ls, v, scratch, id, k, g.tr, view).code|;
    TestSize(ls, v, scratch, id, k, g.tr, view);
    FencesStay(ls, l, m, body, g1, head, b, carry);
    FencesCasesStay(ls, n, m, v, scratch, rest, false, orig', Join(acc, x.ctx.tr), x.ctx, head, b + k, carry);
    FencesCase(ls, m, v, scratch, id, body, rest, first, orig, acc, g, head, at, carry);
  }

  lemma TestSize(ls: nat, v: Reg, scratch: Reg, id: Word, n: nat, tr: Ls, view: set<Reg>)
    ensures |GenTest(ls, v, scratch, id, n, tr, view).code| == |GenTest(ls, v, scratch, id, 0, tr, view).code|
  {
    hide Clash;
  }

  /** The marks of a statement: a store in flight at its start or begun in it is in flight on a way out only if the
      tracker there knows of one. `carry` says that an enclosing loop hands a store round. */
  lemma {:induction false} MarkStmt(ls: nat, p: seq<Instr>, out: int -> bool, at: nat, s: Stmt, brk: bool, cont: bool,
                                    g: Ctx, head: Ls, carry: bool, end: int, start: int)
    returns (m: int -> bool)
    requires WellFormed(s, brk, cont) && StoresKept(ls, s, g, head)
    requires Holding(p, at, Gen(ls, s, g, head).code, end, start)
    requires Bare(out, at, at + |Gen(ls, s, g, head).code|, carry)
    requires Ways(out, at + |Gen(ls, s, g, head).code|, Gen(ls, s, g, head), carry, brk, end, cont, start)
    ensures var hi := at + |Gen(ls, s, g, head).code|;
            Within(m, out, at, hi, carry) && HandsOn(ls, p, m, at, hi)
    ensures g.tr.stores || carry ==> m(at)
    ensures Fences(ls, m, s, g, head, at, carry)
    decreases s, 1
  {
    hide Holding, HandsOn, GenBranch, Clash, After, GenCases, StoresKeptCases, OutIf, OutIfElse, OutWhile, OutMaybe,
         SplitKeeps, Fences;
    NoFences(ls, s, g, head, at, carry);
    match s
    case Skip =>
      HoldingSize(p, at, [], end, start);
      NoMarks(ls, p, out, at, carry);
      m := out;
    case Op(i) => m := MarkOp(ls, p, out, at, i, g.tr, carry, end, start);
    case FlushLoads => m := MarkWait(ls, p, out, at, g.tr.loads != {}, g.tr, carry, end, start);
    case FlushStores => m := MarkWait(ls, p, out, at, g.tr.stores, g.tr, carry, end, start);
    case Seq(a, b) => m := MarkSeq(ls, p, out, at, a, b, brk, cont, g, head, carry, end, start);
    case If(cond, v, t) => m := MarkIf(ls, p, out, at, cond, v, t, brk, cont, g, head, carry, end, start);
    case IfElse(cond, v, t, e) =>
      m := MarkIfElse(ls, p, out, at, cond, v, t, e, brk, cont, g, head, carry, end, start);
    case While(cond, v, body) => m := MarkWhile(ls, p, out, at, cond, v, body, g, carry, end, start);
    case BreakIf(cond, v) => m := MarkBranch(ls, p, out, at, End, cond, v, g.tr, carry, end, start);
    case ContinueIf(cond, v) =>
      m := MarkWaitBranch(ls, p, out, at, g.tr.loads - head.loads != {}, cond, v, g.tr, carry, end, start);
    case Match(v, scratch, cs) =>
      m := MarkCases(ls, p, out, at, v, scratch, cs, brk, cont, true, g.tr, IDLE, g.(pend := false), head, carry, end,
                     start);
      FencesMatch(ls, m, v, scratch, cs, g, head, at, carry);
    case Maybe(patched, body) => m := MarkMaybe(ls, p, out, at, patched, body, cont, g, head, carry, end, start);
  }

  /** Nothing stands behind a flush in these. */
  lemma NoFences(ls: nat, s: Stmt, g: Ctx, head: Ls, at: nat, carry: bool)
    ensures s.Skip? || s.FlushLoads? || s.FlushStores? || s.BreakIf? || s.ContinueIf? ==>
              forall m: int -> bool :: Fences(ls, m, s, g, head, at, carry)
    ensures s.Op? ==> forall m: int -> bool :: (m(at) <==> g.tr.stores || carry) ==>
                        Fences(ls, m, s, g, head, at, carry)
  {
    hide Gen;
  }

  lemma NoMarks(ls: nat, p: seq<Instr>, out: int -> bool, at: nat, carry: bool)
    requires at <= |p|
    ensures Within(out, out, at, at, carry) && HandsOn(ls, p, out, at, at)
  {
  }

  /** The back branch of a loop, behind the WAIT for loads. */
  lemma MarkWaitBranch(ls: nat, p: seq<Instr>, out: int -> bool, at: nat, need: bool, cond: Cond, v: Val, tr: Ls,
                       carry: bool, end: int, start: int)
    returns (m: int -> bool)
    requires SplitKeeps(cond, v, WaitIf(ls, need, tr).tr)
    requires var w := WaitIf(ls, need, tr);
             var q := GenBranch(ls, Start, cond, v, w.tr);
             var hi := at + |w.code| + |q.code|;
             && Holding(p, at, w.code + q.code, end, start) && Bare(out, at, hi, carry)
             && (q.tr.stores || carry ==> out(hi) && out(start))
    ensures var w := WaitIf(ls, need, tr);
            var hi := at + |w.code| + |GenBranch(ls, Start, cond, v, w.tr).code|;
            Within(m, out, at, hi, carry) && HandsOn(ls, p, m, at, hi)
    ensures tr.stores || carry ==> m(at)
  {
    hide Holding, HandsOn, GenBranch, SplitKeeps;
    var w := WaitIf(ls, need, tr);
    var q := GenBranch(ls, Start, cond, v, w.tr);
    var mid, hi := at + |w.code|, at + |w.code| + |q.code|;
    HoldingConcat(p, at, w.code, q.code, end, start);
    var b := MarkBranch(ls, p, out, mid, Start, cond, v, w.tr, carry, end, start);
    m := MarkWait(ls, p, b, at, need, tr, carry, end, start);
    BareBehind(b, out, at, mid, hi, carry);
    Before(ls, p, m, b, out, at, mid, hi, carry);
  }

  lemma {:induction false} MarkSeq(ls: nat, p: seq<Instr>, out: int -> bool, at: nat, a: Stmt, b: Stmt, brk: bool,
                                   cont: bool, g: Ctx, head: Ls, carry: bool, end: int, start: int)
    returns (m: int -> bool)
    requires WellFormed(a, brk, cont) && WellFormed(b, brk, cont)
    requires StoresKept(ls, a, g, head) && StoresKept(ls, b, Gen(ls, a, g, head).ctx, head)
    requires var x := Gen(ls, a, g, head);
             var y := Gen(ls, b, x.ctx, head);
             var hi := at + |x.code| + |y.code|;
             && Holding(p, at, x.code + y.code, end, start) && Bare(out, at, hi, carry)
             && Ways(out, hi, y.(div := Join(x.div, y.div)), carry, brk, end, cont, start)
    ensures var x := Gen(ls, a, g, head);
            var hi := at + |x.code| + |Gen(ls, b, x.ctx, head).code|;
            Within(m, out, at, hi, carry) && HandsOn(ls, p, m, at, hi)
    ensures g.tr.stores || carry ==> m(at)
    ensures Fences(ls, m, Seq(a, b), g, head, at, carry)
    decreases Stmt.Seq(a, b), 0
  {
    hide Gen, StoresKept, WellFormed, Holding, HandsOn, Fences;
    var x := Gen(ls, a, g, head);
    var y := Gen(ls, b, x.ctx, head);
    var mid, hi := at + |x.code|, at + |x.code| + |y.code|;
    HoldingConcat(p, at, x.code, y.code, end, start);
    var n := MarkStmt(ls, p, out, mid, b, brk, cont, x.ctx, head, carry, end, start);
    BareBehind(n, out, at, mid, hi, carry);
    m := MarkStmt(ls, p, n, at, a, brk, cont, g, head, carry, end, start);
    Before(ls, p, m, n, out, at, mid, hi, carry);
    FencesStay(ls, n, m, b, x.ctx, head, mid, carry);
    FencesSeq(ls, m, a, b, g, head, at, carry);
  }

  /** A condition in front of what it guards. */
  lemma MarkGuard(ls: nat, p: seq<Instr>, out: int -> bool, at: nat, cond: Cond, v: Val, tr: Ls, body: int -> bool,
                  hi: nat, carry: bool, end: int, start: int)
    returns (m: int -> bool)
    requires SplitKeeps(cond, v, tr) && Holding(p, at, GenBranch(ls, End, cond, v, tr).code, end, start)
    requires var q := GenBranch(ls, End, cond, v, tr);
             var mid := at + |q.code|;
             && mid <= hi <= |p| && Within(body, out, mid, hi, carry) && HandsOn(ls, p, body, mid, hi)
             && Bare(out, at, hi, carry) && (q.tr.stores || carry ==> body(mid) && body(end))
    ensures Within(m, out, at, hi, carry) && HandsOn(ls, p, m, at, hi) && (tr.stores || carry ==> m(at))
    ensures forall pos :: at + |GenBranch(ls, End, cond, v, tr).code| <= pos ==> m(pos) == body(pos)
  {
    hide Holding, HandsOn, GenBranch, SplitKeeps;
    var mid := at + |GenBranch(ls, End, cond, v, tr).code|;
    BareBehind(body, out, at, mid, hi, carry);
    m := MarkBranch(ls, p, body, at, End, cond, v, tr, carry, end, start);
    Before(ls, p, m, body, out, at, mid, hi, carry);
  }

  lemma {:induction false} MarkIf(ls: nat, p: seq<Instr>, out: int -> bool, at: nat, cond: Cond, v: Val, t: Stmt,
                                  brk: bool, cont: bool, g: Ctx, head: Ls, carry: bool, end: int, start: int)
    returns (m: int -> bool)
    requires cond != Always && WellFormed(t, brk, cont)
    requires var q := GenBranch(ls, End, Invert(cond), v, g.tr);
             var g1 := Ctx(q.tr, g.ifLs, false);
             var o := OutIf(q, Gen(ls, t, g1, head));
             && SplitKeeps(Invert(cond), v, g.tr) && StoresKept(ls, t, g1, head)
             && Holding(p, at, o.code, end, start) && Bare(out, at, at + |o.code|, carry)
             && Ways(out, at + |o.code|, o, carry, brk, end, cont, start)
    ensures var q := GenBranch(ls, End, Invert(cond), v, g.tr);
            var hi := at + |OutIf(q, Gen(ls, t, Ctx(q.tr, g.ifLs, false), head)).code|;
            Within(m, out, at, hi, carry) && HandsOn(ls, p, m, at, hi)
    ensures g.tr.stores || carry ==> m(at)
    ensures Fences(ls, m, If(cond, v, t), g, head, at, carry)
    decreases Stmt.If(cond, v, t), 0
  {
    hide Gen, StoresKept, WellFormed, GenBranch, SplitKeeps, Holding, HandsOn, Fences;
    var q := GenBranch(ls, End, Invert(cond), v, g.tr);
    var g1 := Ctx(q.tr, g.ifLs, false);
    var x := Gen(ls, t, g1, head);
    var e := |q.code| + |x.code|;
    HoldingConcat(p, at, Resolve(q.code, e, 0), x.code, end, start);
    HoldingResolved(p, at, q.code, e, 0, end, start);
    BareBehind(out, out, at, at + e, at + e, carry);
    var n := MarkStmt(ls, p, out, at + |q.code|, t, brk, cont, g1, head, carry, end, start);
    m := MarkGuard(ls, p, out, at, Invert(cond), v, g.tr, n, at + e, carry, at + e, at);
    FencesStay(ls, n, m, t, g1, head, at + |q.code|, carry);
    FencesIf(ls, m, cond, v, t, g, head, at, carry);
  }

  /** A branch over what is behind it. */
  lemma MarkAway(ls: nat, p: seq<Instr>, out: int -> bool, at: nat, k: nat, tr: Ls, carry: bool, end: int, start: int)
    returns (m: int -> bool)
    requires Holding(p, at, [Emit(Branch(k, Always, 0), tr.loads)], end, start)
    requires tr.stores || carry ==> out(at + 1 + k)
    ensures Within(m, out, at, at + 1, carry) && HandsOn(ls, p, m, at, at + 1) && (tr.stores || carry ==> m(at))
  {
    HoldingOne(p, at, Emit(Branch(k, Always, 0), tr.loads), end, start);
    m := OneMark(out, at, tr.stores || carry);
  }

  /** A body with a branch over what is behind it. */
  lemma {:induction false} MarkArm(ls: nat, p: seq<Instr>, out: int -> bool, at: nat, s: Stmt, behind: int -> bool,
                                   k: nat, brk: bool, cont: bool, g: Ctx, head: Ls, carry: bool, end: int, start: int)
    returns (m: int -> bool)
    requires WellFormed(s, brk, cont) && StoresKept(ls, s, g, head)
    requires var x := Gen(ls, s, g, head);
             var mid := at + |x.code|;
             var hi := mid + 1 + k;
             && Holding(p, at, x.code, end, start)
             && Holding(p, mid, [Emit(Branch(k, Always, 0), x.ctx.tr.loads)], 0, 0)
             && hi <= |p| && Within(behind, out, mid + 1, hi, carry) && HandsOn(ls, p, behind, mid + 1, hi)
             && Bare(out, at, hi, carry) && Ways(out, hi, x, carry, brk, end, cont, start)
    ensures var mid := at + |Gen(ls, s, g, head).code|;
            && Within(m, out, at, mid + 1 + k, carry) && HandsOn(ls, p, m, at, mid + 1 + k)
            && forall pos :: mid < pos ==> m(pos) == behind(pos)
    ensures g.tr.stores || carry ==> m(at)
    ensures Fences(ls, m, s, g, head, at, carry)
    decreases s, 2
  {
    hide Gen, StoresKept, WellFormed, Holding, HandsOn, Fences;
    var x := Gen(ls, s, g, head);
    var mid, hi := at + |x.code|, at + |x.code| + 1 + k;
    BareBehind(behind, out, at, mid + 1, hi, carry);
    var n := MarkAway(ls, p, behind, mid, k, x.ctx.tr, carry, 0, 0);
    Before(ls, p, n, behind, out, mid, mid + 1, hi, carry);
    BareBehind(n, out, at, mid, hi, carry);
    m := MarkStmt(ls, p, n, at, s, brk, cont, g, head, carry, end, start);
    Before(ls, p, m, n, out, at, mid, hi, carry);
  }

  lemma {:induction false} MarkIfElse(ls: nat, p: seq<Instr>, out: int -> bool, at: nat, cond: Cond, v: Val, t: Stmt,
                                      u: Stmt, brk: bool, cont: bool, g: Ctx, head: Ls, carry: bool, end: int,
                                      start: int)
    returns (m: int -> bool)
    requires cond != Always && WellFormed(t, brk, cont) && WellFormed(u, brk, cont)
    requires var q := GenBranch(ls, End, Invert(cond), v, g.tr);
             var g1 := Ctx(q.tr, g.ifLs, false);
             var x := Gen(ls, t, g1, head);
             var y := Gen(ls, u, ElseCtx(q, x), head);
             var o := OutIfElse(q, x, y);
             && SplitKeeps(Invert(cond), v, g.tr) && StoresKept(ls, t, g1, head)
             && StoresKept(ls, u, ElseCtx(q, x), head) && ElseKeeps(x, y)
             && Holding(p, at, o.code, end, start) && Bare(out, at, at + |o.code|, carry)
             && Ways(out, at + |o.code|, o, carry, brk, end, cont, start)
    ensures var q := GenBranch(ls, End, Invert(cond), v, g.tr);
            var x := Gen(ls, t, Ctx(q.tr, g.ifLs, false), head);
            var hi := at + |OutIfElse(q, x, Gen(ls, u, ElseCtx(q, x), head)).code|;
            Within(m, out, at, hi, carry) && HandsOn(ls, p, m, at, hi)
    ensures g.tr.stores || carry ==> m(at)
    ensures Fences(ls, m, IfElse(cond, v, t, u), g, head, at, carry)
    decreases Stmt.IfElse(cond, v, t, u), 0
  {
    hide Gen, StoresKept, WellFormed, GenBranch, SplitKeeps, Holding, HandsOn, Fences;
    var q := GenBranch(ls, End, Invert(cond), v, g.tr);
    var g1 := Ctx(q.tr, g.ifLs, false);
    var x := Gen(ls, t, g1, head);
    var y := Gen(ls, u, ElseCtx(q, x), head);
    var e := |q.code| + |x.code| + 1;
    var hi := at + e + |y.code|;
    var away := Emit(Branch(|y.code|, Always, 0), x.ctx.tr.loads);
    HoldingConcat(p, at, Resolve(q.code, e, 0) + x.code + [away], y.code, end, start);
    HoldingConcat(p, at, Resolve(q.code, e, 0) + x.code, [away], end, start);
    HoldingConcat(p, at, Resolve(q.code, e, 0), x.code, end, start);
    HoldingResolved(p, at, q.code, e, 0, end, start);
    SameAway(p, at + e - 1, |y.code|, x.ctx.tr.loads, end, start);
    var l := MarkStmt(ls, p, out, at + e, u, brk, cont, ElseCtx(q, x), head, carry, end, start);
    var n := MarkArm(ls, p, out, at + |q.code|, t, l, |y.code|, brk, cont, g1, head, carry, end, start);
    m := MarkGuard(ls, p, out, at, Invert(cond), v, g.tr, n, hi, carry, at + e, at);
    FencesStay(ls, l, m, u, ElseCtx(q, x), head, at + e, carry);
    FencesStay(ls, n, m, t, g1, head, at + |q.code|, carry);
    FencesIfElse(ls, m, cond, v, t, u, g, head, at, carry);
  }

  lemma SameAway(p: seq<Instr>, at: nat, k: nat, loads: set<Reg>, end: int, start: int)
    requires Holding(p, at, [Emit(Branch(k, Always, 0), loads)], end, start)
    ensures Holding(p, at, [Emit(Branch(k, Always, 0), loads)], 0, 0)
  {
    HoldingOne(p, at, Emit(Branch(k, Always, 0), loads), end, start);
  }

  /** A loop hands round what its back branch or a `continue` leaves in flight; the head does not know of it, but the
      tracker behind the loop does. */
  lemma {:induction false} MarkWhile(ls: nat, p: seq<Instr>, out: int -> bool, at: nat, cond: Cond, v: Val, body: Stmt,
                                     g: Ctx, carry: bool, end: int, start: int)
    returns (m: int -> bool)
    requires WellFormed(body, true, true) && StoresKept(ls, While(cond, v, body), g, IDLE)
    requires var o := Gen(ls, While(cond, v, body), g, IDLE);
             && Holding(p, at, o.code, end, start) && Bare(out, at, at + |o.code|, carry)
             && (o.ctx.tr.stores || carry ==> out(at + |o.code|))
    ensures var hi := at + |Gen(ls, While(cond, v, body), g, IDLE).code|;
            Within(m, out, at, hi, carry) && HandsOn(ls, p, m, at, hi)
    ensures g.tr.stores || carry ==> m(at)
    ensures forall h :: Fences(ls, m, While(cond, v, body), g, h, at, carry)
    decreases While(cond, v, body), 0
  {
    hide WellFormed, GenBranch, SplitKeeps, Holding, HandsOn, Fences, Round;
    var q := if cond == Always then Piece([], g.tr) else GenBranch(ls, End, Invert(cond), v, g.tr);
    var g1 := Ctx(q.tr, g.ifLs, false);
    var x := Gen(ls, body, g1, q.tr);
    var w := LoopWait(ls, q, x);
    var back := GenBranch(ls, Start, cond, v, w.tr);
    var inner := q.code + x.code + w.code + back.code;
    var e, l := at + |inner|, at + |q.code|;
    HoldingResolved(p, at, inner, |inner|, |q.code|, end, start);
    assert inner == q.code + (x.code + (w.code + back.code));
    HoldingConcat(p, at, q.code, x.code + (w.code + back.code), e, l);
    OpeningBranch(ls, Start, cond, v, w.tr);
    var n := MarkLoop(ls, p, out, l, cond, v, body, q, g1, carry, e);
    if cond == Always {
      m := n;
    } else {
      m := MarkGuard(ls, p, out, at, Invert(cond), v, g.tr, n, e, carry, e, l);
    }
    FencesStay(ls, n, m, body, g1, q.tr, l, carry || Round(ls, cond, v, q, x));
    forall h ensures Fences(ls, m, While(cond, v, body), g, h, at, carry) {
      FencesWhile(ls, m, cond, v, body, g, h, at, carry);
    }
  }

  /** The loop from its start label on. */
  lemma {:induction false} MarkLoop(ls: nat, p: seq<Instr>, out: int -> bool, l: nat, cond: Cond, v: Val, body: Stmt,
                                    q: Piece, g1: Ctx, carry: bool, e: nat)
    returns (m: int -> bool)
    requires WellFormed(body, true, true) && StoresKept(ls, body, g1, q.tr) && g1.tr == q.tr
    requires var x := Gen(ls, body, g1, q.tr);
             var w := LoopWait(ls, q, x);
             var back := GenBranch(ls, Start, cond, v, w.tr);
             && SplitKeeps(cond, v, w.tr) && e == l + |x.code| + |w.code| + |back.code| && l < e
             && Holding(p, l, x.code + (w.code + back.code), e, l) && Bare(out, l, e, carry)
             && (q.tr.stores || x.div.stores || back.tr.stores || carry ==> out(e))
    ensures e <= |p| && Within(m, out, l, e, carry) && HandsOn(ls, p, m, l, e)
    ensures q.tr.stores || carry ==> m(l)
    ensures Fences(ls, m, body, g1, q.tr, l, carry || Round(ls, cond, v, q, Gen(ls, body, g1, q.tr)))
    decreases body, 2
  {
    hide Gen, StoresKept, WellFormed, GenBranch, SplitKeeps, Holding, HandsOn, Fences;
    var x := Gen(ls, body, g1, q.tr);
    var need := x.ctx.tr.loads - q.tr.loads != {};
    var w := WaitIf(ls, need, x.ctx.tr);
    var back := GenBranch(ls, Start, cond, v, w.tr);
    var round := carry || back.tr.stores || x.div.stores;
    var inside := OneMark(out, l, round);
    var mid := l + |x.code|;
    HoldingConcat(p, l, x.code, w.code + back.code, e, l);
    HoldingSize(p, mid, w.code + back.code, e, l);
    var n := MarkWaitBranch(ls, p, inside, mid, need, cond, v, x.ctx.tr, round, e, l);
    BareBehind(n, inside, l, mid, e, round);
    m := MarkStmt(ls, p, n, l, body, true, true, g1, q.tr, round, e, l);
    Before(ls, p, m, n, inside, l, mid, e, round);
  }

  lemma HoldingSize(p: seq<Instr>, at: nat, code: seq<Item>, end: int, start: int)
    requires Holding(p, at, code, end, start)
    ensures at + |code| <= |p|
  {
  }

  lemma {:induction false} MarkMaybe(ls: nat, p: seq<Instr>, out: int -> bool, at: nat, patched: bool, body: Stmt,
                                     cont: bool, g: Ctx, head: Ls, carry: bool, end: int, start: int)
    returns (m: int -> bool)
    requires WellFormed(body, false, cont) && StoresKept(ls, body, g.(pend := false), head)
    requires var o := OutMaybe(ls, patched, g.tr, Gen(ls, body, g.(pend := false), head));
             && Holding(p, at, o.code, end, start) && Bare(out, at, at + |o.code|, carry)
             && Ways(out, at + |o.code|, o, carry, false, end, cont, start)
    ensures var hi := at + |OutMaybe(ls, patched, g.tr, Gen(ls, body, g.(pend := false), head)).code|;
            Within(m, out, at, hi, carry) && HandsOn(ls, p, m, at, hi)
    ensures g.tr.stores || carry ==> m(at)
    ensures Fences(ls, m, Maybe(patched, body), g, head, at, carry)
    decreases Stmt.Maybe(patched, body), 0
  {
    hide Gen, StoresKept, WellFormed, Fences;
    var x := Gen(ls, body, g.(pend := false), head);
    var need := x.ctx.tr.loads - g.tr.loads != {} || (x.ctx.tr.stores && !g.tr.stores);
    var w := WaitIf(ls, need, x.ctx.tr);
    if patched {
      hide Holding, HandsOn;
      var mid, hi := at + |x.code|, at + |x.code| + |w.code|;
      HoldingConcat(p, at, x.code, w.code, end, start);
      var n := MarkWait(ls, p, out, mid, need, x.ctx.tr, carry, end, start);
      BareBehind(n, out, at, mid, hi, carry);
      m := MarkStmt(ls, p, n, at, body, false, cont, g.(pend := false), head, carry, end, start);
      Before(ls, p, m, n, out, at, mid, hi, carry);
    } else {
      m := MarkBlank(ls, p, out, at, |x.code + w.code|, g.tr, carry, end, start);
    }
    FencesMaybe(ls, m, patched, body, g, head, at, carry);
  }

  lemma MarkBlank(ls: nat, p: seq<Instr>, out: int -> bool, at: nat, n: nat, tr: Ls, carry: bool, end: int, start: int)
    returns (m: int -> bool)
    requires Holding(p, at, Blank(n, tr.loads), end, start) && (tr.stores || carry ==> out(at + n))
    ensures Within(m, out, at, at + n, carry) && HandsOn(ls, p, m, at, at + n) && (tr.stores || carry ==> m(at))
  {
    m := pos => if at <= pos < at + n then tr.stores || carry else out(pos);
    forall pc | at <= pc < at + n ensures Hands(ls, p, m, pc) {
      assert p[at + (pc - at)] == Place(Blank(n, tr.loads)[pc - at], pc, end, start);
    }
  }

  // ----- Matches ---------------------------------------------------------------------------------------

  /** The tracker after a match knows of the stores of every case already closed. */
  lemma {:induction false} CasesKeepStores(ls: nat, v: Reg, scratch: Reg, cs: Cases, first: bool, orig: Ls, acc: Ls,
                                           g: Ctx, head: Ls)
    ensures acc.stores ==> GenCases(ls, v, scratch, cs, first, orig, acc, g, head).ctx.tr.stores
    decreases cs
  {
    hide Gen, GenTest;
    match cs
    case Case(id, body, rest) =>
      var q := GenTest(ls, v, scratch, id, 0, g.tr, if first then g.tr.loads else orig.loads);
      var orig' := if first then q.tr else orig;
      var x := Gen(ls, body, Ctx(orig', g.ifLs, false), head);
      CasesKeepStores(ls, v, scratch, rest, false, orig', Join(acc, x.ctx.tr), x.ctx, head);
    case _ =>
  }

  lemma MarkTest(ls: nat, p: seq<Instr>, out: int -> bool, at: nat, v: Reg, scratch: Reg, id: Word, k: nat, tr: Ls,
                 view: set<Reg>, before: bool, after: bool, carry: bool, end: int, start: int)
    returns (m: int -> bool)
    requires var q := GenTest(ls, v, scratch, id, k, tr, view);
             && Holding(p, at, q.code, end, start)
             && (after || carry ==> out(at + |q.code|) && out(at + |q.code| + k))
             && (before && !after ==> tr != IDLE && q.tr == IDLE)
    ensures var hi := at + |GenTest(ls, v, scratch, id, k, tr, view).code|;
            Within(m, out, at, hi, carry) && HandsOn(ls, p, m, at, hi)
    ensures before || carry ==> m(at)
  {
    hide Clash, Holding;
    var sub := AddImm32(scratch, v, 0 - id);
    var need := if id == 0 then v in tr.loads else Clash(sub, tr.loads);
    var wait := if need then [Emit(Wait({ls}), view)] else [];
    var seen := if need then {} else view;
    var here := at + |wait|;
    var hi := at + |GenTest(ls, v, scratch, id, k, tr, view).code|;
    m := pos => if at <= pos < hi then carry || (if pos == at then before else after) else out(pos);
    if id == 0 {
      HoldingConcat(p, at, wait, [Emit(Branch(k, NEqual, v), seen)], end, start);
      HoldingOne(p, here, Emit(Branch(k, NEqual, v), seen), end, start);
    } else {
      var two := [Emit(sub, seen), Emit(Branch(k, NEqual, scratch), seen)];
      assert two == [Emit(sub, seen)] + [Emit(Branch(k, NEqual, scratch), seen)];
      HoldingConcat(p, at, wait, two, end, start);
      HoldingConcat(p, here, [Emit(sub, seen)], [Emit(Branch(k, NEqual, scratch), seen)], end, start);
      HoldingOne(p, here, Emit(sub, seen), end, start);
      HoldingOne(p, here + 1, Emit(Branch(k, NEqual, scratch), seen), end, start);
    }
    if need { HoldingOne(p, at, Emit(Wait({ls}), view), end, start); }
  }

  lemma {:induction false} MarkCases(ls: nat, p: seq<Instr>, out: int -> bool, at: nat, v: Reg, scratch: Reg, cs: Cases,
                                     brk: bool, cont: bool, first: bool, orig: Ls, acc: Ls, g: Ctx, head: Ls,
                                     carry: bool, end: int, start: int)
    returns (m: int -> bool)
    requires WellFormedCases(cs, brk, cont) && StoresKeptCases(ls, v, scratch, cs, first, orig, acc, g, head)
    requires first ==> orig == g.tr
    requires var o := GenCases(ls, v, scratch, cs, first, orig, acc, g, head);
             && Holding(p, at, o.code, end, start) && Bare(out, at, at + |o.code|, carry)
             && Ways(out, at + |o.code|, o, carry, brk, end, cont, start)
    ensures var hi := at + |GenCases(ls, v, scratch, cs, first, orig, acc, g, head).code|;
            Within(m, out, at, hi, carry) && HandsOn(ls, p, m, at, hi)
    ensures orig.stores || carry ==> m(at)
    ensures FencesCases(ls, m, v, scratch, cs, first, orig, acc, g, head, at, carry)
    decreases cs, 1
  {
    hide Gen, StoresKept, WellFormed, Holding, HandsOn;
    match cs
    case NoCase =>
      HoldingSize(p, at, [], end, start);
      NoMarks(ls, p, out, at, carry);
      m := out;
    case Default(body) =>
      m := MarkStmt(ls, p, out, at, body, brk, cont, Ctx(orig, g.ifLs, false), head, carry, end, start);
      FencesDefault(ls, m, v, scratch, body, first, orig, acc, g, head, at, carry);
    case Case(id, body, rest) =>
      m := MarkCase(ls, p, out, at, v, scratch, id, body, rest, brk, cont, first, orig, acc, g, head, carry, end,
                    start);
  }

  /** What is behind the body of a case. */
  lemma {:induction false} MarkRest(ls: nat, p: seq<Instr>, out: int -> bool, at: nat, v: Reg, scratch: Reg,
                                    rest: Cases, brk: bool, cont: bool, orig: Ls, acc: Ls, g: Ctx, head: Ls,
                                    carry: bool, end: int, start: int)
    returns (m: int -> bool)
    requires WellFormedCases(rest, brk, cont) && StoresKeptCases(ls, v, scratch, rest, false, orig, acc, g, head)
    requires g.tr.stores ==> acc.stores
    requires var y := GenCases(ls, v, scratch, rest, false, orig, acc, g, head);
             var tail := if rest.NoCase? then [] else [Emit(Branch(|y.code|, Always, 0), g.tr.loads)] + y.code;
             && Holding(p, at, tail, end, start) && Bare(out, at, at + |tail|, carry)
             && Ways(out, at + |tail|, y, carry, brk, end, cont, start)
    ensures var y := GenCases(ls, v, scratch, rest, false, orig, acc, g, head);
            var hi := at + if rest.NoCase? then 0 else |y.code| + 1;
            Within(m, out, at, hi, carry) && HandsOn(ls, p, m, at, hi)
    ensures g.tr.stores || carry ==> m(at)
    ensures orig.stores || carry ==> m(at + if rest.NoCase? then 0 else 1)
    ensures FencesCases(ls, m, v, scratch, rest, false, orig, acc, g, head, at + (if rest.NoCase? then 0 else 1), carry)
    decreases rest, 2
  {
    hide Holding, HandsOn, StoresKeptCases, Gen;
    var y := GenCases(ls, v, scratch, rest, false, orig, acc, g, head);
    CasesKeepStores(ls, v, scratch, rest, false, orig, acc, g, head);
    if rest.NoCase? {
      HoldingSize(p, at, [], end, start);
      NoMarks(ls, p, out, at, carry);
      m := out;
    } else {
      hide GenCases;
      var away := Emit(Branch(|y.code|, Always, 0), g.tr.loads);
      HoldingConcat(p, at, [away], y.code, end, start);
      var n := MarkCases(ls, p, out, at + 1, v, scratch, rest, brk, cont, false, orig, acc, g, head, carry, end, start);
      BareBehind(n, out, at, at + 1, at + 1 + |y.code|, carry);
      m := MarkAway(ls, p, n, at, |y.code|, g.tr, carry, end, start);
      Before(ls, p, m, n, out, at, at + 1, at + 1 + |y.code|, carry);
      FencesCasesStay(ls, n, m, v, scratch, rest, false, orig, acc, g, head, at + 1, carry);
    }
  }

  lemma {:induction false} MarkCase(ls: nat, p: seq<Instr>, out: int -> bool, at: nat, v: Reg, scratch: Reg, id: Word,
                                    body: Stmt, rest: Cases, brk: bool, cont: bool, first: bool, orig: Ls, acc: Ls,
                                    g: Ctx, head: Ls, carry: bool, end: int, start: int)
    returns (m: int -> bool)
    requires WellFormed(body, brk, cont) && WellFormedCases(rest, brk, cont)
    requires StoresKeptCases(ls, v, scratch, Case(id, body, rest), first, orig, acc, g, head)
    requires first ==> orig == g.tr
    requires var o := GenCases(ls, v, scratch, Case(id, body, rest), first, orig, acc, g, head);
             && Holding(p, at, o.code, end, start) && Bare(out, at, at + |o.code|, carry)
             && Ways(out, at + |o.code|, o, carry, brk, end, cont, start)
    ensures var hi := at + |GenCases(ls, v, scratch, Case(id, body, rest), first, orig, acc, g, head).code|;
            Within(m, out, at, hi, carry) && HandsOn(ls, p, m, at, hi)
    ensures orig.stores || carry ==> m(at)
    ensures FencesCases(ls, m, v, scratch, Case(id, body, rest), first, orig, acc, g, head, at, carry)
    decreases Case(id, body, rest), 0
  {
    hide Gen, StoresKept, WellFormed, Holding, HandsOn, GenCases, StoresKeptCases, GenTest, Clash, Fences, FencesCases;
    var view := if first then g.tr.loads else orig.loads;
    var orig' := if first then GenTest(ls, v, scratch, id, 0, g.tr, view).tr else orig;
    var g1 := Ctx(orig', g.ifLs, false);
    var x := Gen(ls, body, g1, head);
    var acc' := Join(acc, x.ctx.tr);
    var y := GenCases(ls, v, scratch, rest, false, orig', acc', x.ctx, head);
    var tail := if rest.NoCase? then [] else [Emit(Branch(|y.code|, Always, 0), x.ctx.tr.loads)] + y.code;
    var k := |x.code| + if rest.NoCase? then 0 else 1;
    var test := GenTest(ls, v, scratch, id, k, g.tr, view);
    CaseStores(ls, v, scratch, id, body, rest, first, orig, acc, g, head);
    var b, e, hi := at + |test.code|, at + |test.code| + |x.code|, at + |test.code| + |x.code| + |tail|;
    HoldingConcat(p, at, test.code + x.code, tail, end, start);
    HoldingConcat(p, at, test.code, x.code, end, start);
    HoldingSize(p, e, tail, end, start);
    var n := MarkRest(ls, p, out, e, v, scratch, rest, brk, cont, orig', acc', x.ctx, head, carry, end, start);
    BareBehind(n, out, at, e, hi, carry);
    var l := MarkStmt(ls, p, n, b, body, brk, cont, g1, head, carry, end, start);
    Before(ls, p, l, n, out, b, e, hi, carry);
    BareBehind(l, out, at, b, hi, carry);
    m := MarkTest(ls, p, l, at, v, scratch, id, k, g.tr, view, orig.stores, orig'.stores, carry, end, start);
    Before(ls, p, m, l, out, at, b, hi, carry);
    FencesInCase(ls, n, l, m, v, scratch, id, body, rest, first, orig, acc, g, head, at, carry);
  }

  /** The parts of a case. */
  lemma CaseStores(ls: nat, v: Reg, scratch: Reg, id: Word, body: Stmt, rest: Cases, first: bool, orig: Ls, acc: Ls,
                   g: Ctx, head: Ls)
    requires first ==> orig == g.tr
    ensures var view := if first then g.tr.loads else orig.loads;
            var orig' := if first then GenTest(ls, v, scratch, id, 0, g.tr, view).tr else orig;
            var g1 := Ctx(orig', g.ifLs, false);
            var x := Gen(ls, body, g1, head);
            var acc' := Join(acc, x.ctx.tr);
            var y := GenCases(ls, v, scratch, rest, false, orig', acc', x.ctx, head);
            var tail := if rest.NoCase? then [] else [Emit(Branch(|y.code|, Always, 0), x.ctx.tr.loads)] + y.code;
            var k := |x.code| + if rest.NoCase? then 0 else 1;
            var test := GenTest(ls, v, scratch, id, k, g.tr, view);
            && GenCases(ls, v, scratch, Case(id, body, rest), first, orig, acc, g, head)
                 == Out(test.code + x.code + tail, y.ctx, Join(x.div, y.div), x.ok && y.ok)
            && (StoresKeptCases(ls, v, scratch, Case(id, body, rest), first, orig, acc, g, head) ==>
                  (StoresKept(ls, body, g1, head)
                       && StoresKeptCases(ls, v, scratch, rest, false, orig', acc', x.ctx, head)))
            && (orig.stores && !orig'.stores ==> g.tr != IDLE && test.tr == IDLE)
  {
    hide Gen, StoresKept, Clash;
  }

  // ----- Main results ------------------------------------------------------------------------------------

  /** The marks of a whole program. */
  lemma Marks(ls: nat, s: Stmt, g: Ctx, head: Ls) returns (m: int -> bool)
    requires WellFormed(s, false, false) && StoresKept(ls, s, g, head)
    ensures var o := Gen(ls, s, g, head);
            var p := Finish(o.code);
            HandsOn(ls, p, m, 0, |p|) && (m(|p|) ==> o.ctx.tr.stores) && (g.tr.stores ==> m(0))
    ensures Fences(ls, m, s, g, head, 0, false)
  {
    hide Gen, StoresKept, WellFormed, HandsOn, Fences;
    var o := Gen(ls, s, g, head);
    var p := Finish(o.code);
    assert Holding(p, 0, o.code, 0, 0);
    hide Finish;
    m := MarkStmt(ls, p, OneMark(_ => false, |p|, o.ctx.tr.stores), 0, s, false, false, g, head, false, 0, 0);
  }

  /** On every path through the code, whichever way its branches go and however often it goes round its loops: a store
      that is in flight at the end is one the tracker knows of. */
  lemma StoresTracked(ls: nat, s: Stmt, g: Ctx, head: Ls, entry: bool, pcs: seq<nat>)
    requires WellFormed(s, false, false) && StoresKept(ls, s, g, head) && (entry ==> g.tr.stores)
    requires var p := Finish(Gen(ls, s, g, head).code); Path(p, pcs) && pcs[|pcs| - 1] == |p|
    ensures var o := Gen(ls, s, g, head);
            StoreInFlight(ls, Finish(o.code), pcs, entry) ==> o.ctx.tr.stores
  {
    hide Gen, StoresKept, WellFormed, HandsOn, Path, StoreInFlight, Finish, Fences;
    var m := Marks(ls, s, g, head);
    Marked(ls, Finish(Gen(ls, s, g, head).code), m, pcs, entry);
  }

  /** So no path leaves a flush of the stores with one in flight. */
  lemma FlushedStores(ls: nat, s: Stmt, g: Ctx, head: Ls, entry: bool, pcs: seq<nat>)
    requires WellFormed(s, false, false) && StoresKept(ls, s, g, head) && (entry ==> g.tr.stores)
    requires var p := Finish(Gen(ls, Seq(s, FlushStores), g, head).code); Path(p, pcs) && pcs[|pcs| - 1] == |p|
    ensures !StoreInFlight(ls, Finish(Gen(ls, Seq(s, FlushStores), g, head).code), pcs, entry)
  {
    StoresTracked(ls, Seq(s, FlushStores), g, head, entry, pcs);
  }

  /** And inside the program: no path reaches an instruction behind a flush with a store in flight, wherever it stands,
      if no loop around it hands a store round. */
  lemma FencesHold(ls: nat, s: Stmt, g: Ctx, head: Ls, entry: bool, pcs: seq<nat>)
    requires WellFormed(s, false, false) && StoresKept(ls, s, g, head) && (entry ==> g.tr.stores)
    requires Path(Finish(Gen(ls, s, g, head).code), pcs) && pcs[|pcs| - 1] in Fenced(ls, s, g, head, 0, false)
    ensures !StoreInFlight(ls, Finish(Gen(ls, s, g, head).code), pcs, entry)
  {
    hide Gen, StoresKept, WellFormed, HandsOn, Path, StoreInFlight, Finish, Fenced;
    var m := Marks(ls, s, g, head);
    Marked(ls, Finish(Gen(ls, s, g, head).code), m, pcs, entry);
  }

  /** Patched in or not, a maybe block hands on no store but one that was in flight before it. */
  lemma MaybeHandsOnNone(ls: nat, patched: bool, body: Stmt, g: Ctx, head: Ls, entry: bool, pcs: seq<nat>)
    requires WellFormed(body, false, false) && StoresKept(ls, body, g.(pend := false), head)
    requires entry ==> g.tr.stores
    requires var p := Finish(Gen(ls, Maybe(patched, body), g, head).code); Path(p, pcs) && pcs[|pcs| - 1] == |p|
    ensures StoreInFlight(ls, Finish(Gen(ls, Maybe(patched, body), g, head).code), pcs, entry) ==> g.tr.stores
  {
    hide Finish, Path, StoreInFlight;
    assert WellFormed(Maybe(patched, body), false, false) && StoresKept(ls, Maybe(patched, body), g, head);
    assert Gen(ls, Maybe(patched, body), g, head).ctx.tr == g.tr;
    hide Gen, StoresKept, WellFormed;
    StoresTracked(ls, Maybe(patched, body), g, head, entry, pcs);
  }
}
