/** No path through the code of a structured program touches a register with a load in flight. */
module Tracker {
  import opened Isa
  import opened Structured
  import Preservation

  // ----- Annotated code ------------------------------------------------------------------------

  /** `f[i]` bounds what is in flight when control is at `i`: instruction `i` is no hazard and every way
      out of it stays within the bound. */
  ghost predicate Safe(ls: nat, p: seq<Instr>, f: seq<set<Reg>>, i: nat)
    requires |f| == |p| + 1 && i < |p|
  {
    && !Clash(p[i], f[i])
    && match p[i]
       case Branch(rel, cond, _) =>
         && 0 <= i + 1 + rel <= |p| && f[i] <= f[i + 1 + rel]
         && (cond != Always ==> f[i] <= f[i + 1])
       case Jump(_, _) => true
       case x => Flight(ls, x, f[i]) <= f[i + 1]
  }

  ghost predicate AllSafe(ls: nat, p: seq<Instr>, f: seq<set<Reg>>, lo: nat, hi: nat)
    requires |f| == |p| + 1 && hi <= |p|
  {
    forall i :: lo <= i < hi ==> Safe(ls, p, f, i)
  }

  ghost predicate Annotated(f: seq<set<Reg>>, at: nat, code: seq<Item>) {
    at + |code| <= |f| && forall i :: 0 <= i < |code| ==> f[at + i] == code[i].loads
  }

  lemma AnnotatedConcat(f: seq<set<Reg>>, at: nat, a: seq<Item>, b: seq<Item>)
    ensures Annotated(f, at, a + b) <==> Annotated(f, at, a) && Annotated(f, at + |a|, b)
  {
    var c := a + b;
    if Annotated(f, at, c) {
      forall i | 0 <= i < |a| ensures f[at + i] == a[i].loads { assert c[i] == a[i]; }
      forall i | 0 <= i < |b| ensures f[at + |a| + i] == b[i].loads {
        assert c[|a| + i] == b[i] && f[at + (|a| + i)] == c[|a| + i].loads;
      }
    }
    if Annotated(f, at, a) && Annotated(f, at + |a|, b) {
      forall i | 0 <= i < |c| ensures f[at + i] == c[i].loads {
        if i >= |a| { assert f[at + |a| + (i - |a|)] == b[i - |a|].loads; }
      }
    }
  }

  /** A piece of code in place, in a program with its annotation. */
  ghost predicate Placed(p: seq<Instr>, f: seq<set<Reg>>, at: nat, code: seq<Item>, end: int, start: int) {
    Preservation.Holding(p, at, code, end, start) && |f| == |p| + 1 && Annotated(f, at, code)
  }

  lemma PlacedConcat(p: seq<Instr>, f: seq<set<Reg>>, at: nat, a: seq<Item>, b: seq<Item>, end: int, start: int)
    ensures Placed(p, f, at, a + b, end, start) <==>
             && Placed(p, f, at, a, end, start)
             && Placed(p, f, at + |a|, b, end, start)
  {
    hide Preservation.Holding, Annotated;
    Preservation.HoldingConcat(p, at, a, b, end, start);
    AnnotatedConcat(f, at, a, b);
  }

  lemma PlacedResolved(p: seq<Instr>, f: seq<set<Reg>>, at: nat, code: seq<Item>, e: int, s: int, end: int, start: int)
    requires Placed(p, f, at, Resolve(code, e, s), end, start)
    ensures Placed(p, f, at, code, at + e, at + s)
  {
    Preservation.HoldingResolved(p, at, code, e, s, end, start);
    forall i | 0 <= i < |code| ensures f[at + i] == code[i].loads {
      assert Resolve(code, e, s)[i].loads == code[i].loads;
    }
  }

  lemma PlacedOne(p: seq<Instr>, f: seq<set<Reg>>, at: nat, x: Item, end: int, start: int)
    requires Placed(p, f, at, [x], end, start)
    ensures p[at] == Place(x, at, end, start) && f[at] == x.loads
  {
    assert [x][0] == x;
  }

  // ----- Single instructions -----------------------------------------------------------------------

  lemma SafeWait(p: seq<Instr>, f: seq<set<Reg>>, at: nat, ls: nat, need: bool, tr: Ls, end: int, start: int)
    requires Placed(p, f, at, WaitIf(ls, need, tr).code, end, start)
    requires var w := WaitIf(ls, need, tr);
             w.tr.loads <= f[at + |w.code|]
    ensures var w := WaitIf(ls, need, tr);
            AllSafe(ls, p, f, at, at + |w.code|)
    ensures tr.loads <= f[at]
  {
    if need { PlacedOne(p, f, at, Emit(Wait({ls}), tr.loads), end, start); }
  }

  lemma SafeOp(p: seq<Instr>, f: seq<set<Reg>>, at: nat, ls: nat, i: Instr, tr: Ls, end: int, start: int)
    requires Plain(i)
    requires Placed(p, f, at, GenOp(ls, i, tr).code, end, start)
    requires GenOp(ls, i, tr).tr.loads <= f[at + |GenOp(ls, i, tr).code|]
    ensures AllSafe(ls, p, f, at, at + |GenOp(ls, i, tr).code|)
    ensures tr.loads <= f[at]
  {
    var w := WaitIf(ls, Clash(i, tr.loads), tr);
    PlacedConcat(p, f, at, w.code, [Emit(i, w.tr.loads)], end, start);
    PlacedOne(p, f, at + |w.code|, Emit(i, w.tr.loads), end, start);
    SafeWait(p, f, at, ls, Clash(i, tr.loads), tr, end, start);
  }

  /** A position a branch may go to with `loads` in flight. */
  ghost predicate Room(f: seq<set<Reg>>, pos: int, loads: set<Reg>) {
    0 <= pos < |f| && loads <= f[pos]
  }

  ghost predicate TargetRoom(f: seq<set<Reg>>, t: Target, after: nat, end: int, start: int, loads: set<Reg>) {
    Room(f, Preservation.Landing(t, after, end, start, true), loads)
  }

  lemma SafeBranch32(p: seq<Instr>, f: seq<set<Reg>>, at: nat, ls: nat, t: Target, cond: Cond, v: Reg, tr: Ls, end: int,
                     start: int)
    requires Placed(p, f, at, Branch32(ls, t, cond, v, tr).code, end, start)
    requires var b := Branch32(ls, t, cond, v, tr);
             && (cond != Always ==> b.tr.loads <= f[at + |b.code|])
             && TargetRoom(f, t, at + |b.code|, end, start, b.tr.loads)
    ensures AllSafe(ls, p, f, at, at + |Branch32(ls, t, cond, v, tr).code|)
    ensures tr.loads <= f[at]
  {
    var need := cond != Always && v in tr.loads;
    var w := WaitIf(ls, need, tr);
    var item := BranchItem(t, cond, if cond == Always then 0 else v, w.tr.loads);
    PlacedConcat(p, f, at, w.code, [item], end, start);
    PlacedOne(p, f, at + |w.code|, item, end, start);
    SafeWait(p, f, at, ls, need, tr, end, start);
  }

  // ----- 64-bit conditions ------------------------------------------------------------------------

  /** A 64-bit condition reads one half first; unless it has to wait for that half, it must not have to
      wait for the other one between its branches. */
  predicate SplitOk(cond: Cond, v: Val, tr: Ls) {
    v.wide ==>
      match cond
      case LEqual => v.reg in tr.loads ==> v.reg + 1 in tr.loads
      case Greater => v.reg in tr.loads ==> v.reg + 1 in tr.loads
      case NEqual => v.reg + 1 in tr.loads ==> v.reg in tr.loads
      case Equal => v.reg + 1 in tr.loads ==> v.reg in tr.loads
      case _ => true
  }

  /** Every branch in `code` is left with at most `bound` in flight. */
  ghost predicate WaysOut(code: seq<Item>, bound: set<Reg>) {
    forall i :: 0 <= i < |code| && !(code[i].Emit? && code[i].i.Wait?) ==> code[i].loads <= bound
  }

  lemma WaysOutConcat(a: seq<Item>, b: seq<Item>, bound: set<Reg>)
    ensures WaysOut(a + b, bound) <==> WaysOut(a, bound) && WaysOut(b, bound)
  {
    var c := a + b;
    if WaysOut(c, bound) {
      forall i | 0 <= i < |a| && !(a[i].Emit? && a[i].i.Wait?) ensures a[i].loads <= bound { assert c[i] == a[i]; }
      forall i | 0 <= i < |b| && !(b[i].Emit? && b[i].i.Wait?) ensures b[i].loads <= bound {
        assert c[|a| + i] == b[i];
      }
    }
  }

  lemma WaysOut32(ls: nat, t: Target, cond: Cond, v: Reg, tr: Ls, bound: set<Reg>)
    ensures WaysOut(Branch32(ls, t, cond, v, tr).code, bound) <==> Branch32(ls, t, cond, v, tr).tr.loads <= bound
  {
    var b := Branch32(ls, t, cond, v, tr);
    assert b.code[|b.code| - 1].loads == b.tr.loads && !(b.code[|b.code| - 1].Emit? && b.code[|b.code| - 1].i.Wait?);
  }

  /** The tracker after a condition: the load/store slot is waited for when a half it reads is in flight. */
  lemma AfterBranch(ls: nat, t: Target, cond: Cond, v: Val, tr: Ls)
    ensures var read := if cond == Always then {}
                         else if !v.wide then {v.reg}
                         else if cond == Less || cond == GEqual then {v.reg + 1}
                         else {v.reg, v.reg + 1};
            GenBranch(ls, t, cond, v, tr).tr == if read !! tr.loads then tr else IDLE
  {
  }

  /** The tracker is right on every way out of a condition exactly when `SplitOk` holds: the WAIT a
      64-bit condition may need for its second half is emitted between its branches, and the first
      branch leaves before it. */
  lemma ConditionExact(ls: nat, t: Target, cond: Cond, v: Val, tr: Ls)
    ensures WaysOut(GenBranch(ls, t, cond, v, tr).code, GenBranch(ls, t, cond, v, tr).tr.loads)
         <==> SplitOk(cond, v, tr)
  {
    hide WaysOut, Branch64;
    AfterBranch(ls, t, cond, v, tr);
    var bound := GenBranch(ls, t, cond, v, tr).tr.loads;
    if !v.wide {
      WaysOut32(ls, t, cond, v.reg, tr, bound);
    } else {
      WaysOut64(ls, t, cond, v.reg, tr, bound);
    }
  }

  lemma WaysOut64(ls: nat, t: Target, cond: Cond, v: Reg, tr: Ls, bound: set<Reg>)
    ensures var lo, hi := v, v + 1;
            var t1 := match cond
                      case Always => tr
                      case NEqual => Tested(ls, NEqual, lo, tr)
                      case Equal => Tested(ls, NEqual, lo, tr)
                      case _ => Tested(ls, Less, hi, tr);
            WaysOut(Branch64(ls, t, cond, v, tr).code, bound) <==>
            t1.loads <= bound && Branch64(ls, t, cond, v, tr).tr.loads <= bound
  {
    hide WaysOut;
    var lo, hi := v, v + 1;
    match cond
    case Always => WaysOut32(ls, t, Always, 0, tr, bound);
    case Less => WaysOut32(ls, t, Less, hi, tr, bound);
    case LEqual =>
      var t1 := Tested(ls, Less, hi, tr);
      var t2 := Tested(ls, NEqual, hi, t1);
      var first, last := Branch32(ls, t, Less, hi, tr), Branch32(ls, t, Equal, lo, t2);
      var skip := Branch32(ls, Ahead(|last.code|), NEqual, hi, t1);
      WaysOutConcat(first.code, skip.code + last.code, bound);
      WaysOutConcat(skip.code, last.code, bound);
      WaysOut32(ls, t, Less, hi, tr, bound);
      WaysOut32(ls, Ahead(|last.code|), NEqual, hi, t1, bound);
      WaysOut32(ls, t, Equal, lo, t2, bound);
    case Greater =>
      var t1 := Tested(ls, Less, hi, tr);
      var t2 := Tested(ls, NEqual, hi, t1);
      var mid, last := Branch32(ls, t, NEqual, hi, t1), Branch32(ls, t, NEqual, lo, t2);
      var skip := Branch32(ls, Ahead(|mid.code + last.code|), Less, hi, tr);
      WaysOutConcat(skip.code, mid.code + last.code, bound);
      WaysOutConcat(mid.code, last.code, bound);
      WaysOut32(ls, Ahead(|mid.code + last.code|), Less, hi, tr, bound);
      WaysOut32(ls, t, NEqual, hi, t1, bound);
      WaysOut32(ls, t, NEqual, lo, t2, bound);
    case GEqual =>
      var t1 := Tested(ls, Less, hi, tr);
      var last := Branch32(ls, t, Always, 0, t1);
      WaysOutConcat(Branch32(ls, Ahead(|last.code|), Less, hi, tr).code, last.code, bound);
      WaysOut32(ls, Ahead(|last.code|), Less, hi, tr, bound);
      WaysOut32(ls, t, Always, 0, t1, bound);
    case NEqual =>
      var t1 := Tested(ls, NEqual, lo, tr);
      WaysOutConcat(Branch32(ls, t, NEqual, lo, tr).code, Branch32(ls, t, NEqual, hi, t1).code, bound);
      WaysOut32(ls, t, NEqual, lo, tr, bound);
      WaysOut32(ls, t, NEqual, hi, t1, bound);
    case Equal =>
      var t1 := Tested(ls, NEqual, lo, tr);
      var last := Branch32(ls, t, Equal, hi, t1);
      WaysOutConcat(Branch32(ls, Ahead(|last.code|), NEqual, lo, tr).code, last.code, bound);
      WaysOut32(ls, Ahead(|last.code|), NEqual, lo, tr, bound);
      WaysOut32(ls, t, Equal, hi, t1, bound);
  }

  lemma SafePairOfBranches(p: seq<Instr>, f: seq<set<Reg>>, at: nat, ls: nat, t1: Target, c1: Cond, v1: Reg, tr: Ls,
                           rest: Piece, end: int, start: int)
    requires Placed(p, f, at, Then(Branch32(ls, t1, c1, v1, tr), rest).code, end, start)
    requires var a := Branch32(ls, t1, c1, v1, tr);
             && AllSafe(ls, p, f, at + |a.code|, at + |a.code| + |rest.code|)
             && a.tr.loads <= f[at + |a.code|]
             && TargetRoom(f, t1, at + |a.code|, end, start, a.tr.loads)
    ensures AllSafe(ls, p, f, at, at + |Then(Branch32(ls, t1, c1, v1, tr), rest).code|)
    ensures tr.loads <= f[at]
  {
    hide Branch32, Preservation.Holding, Annotated;
    PlacedConcat(p, f, at, Branch32(ls, t1, c1, v1, tr).code, rest.code, end, start);
    SafeBranch32(p, f, at, ls, t1, c1, v1, tr, end, start);
  }

  /** What a condition needs around it: room after it and at its target for what the tracker claims. */
  ghost predicate BranchRoom(f: seq<set<Reg>>, t: Target, after: nat, end: int, start: int, loads: set<Reg>) {
    Room(f, after, loads) && TargetRoom(f, t, after, end, start, loads)
  }

  lemma SafeBranch64(p: seq<Instr>, f: seq<set<Reg>>, at: nat, ls: nat, t: Target, cond: Cond, v: Reg, tr: Ls, end: int,
                     start: int)
    requires SplitOk(cond, Val(v, true), tr) && !t.Ahead?
    requires Placed(p, f, at, Branch64(ls, t, cond, v, tr).code, end, start)
    requires BranchRoom(f, t, at + |Branch64(ls, t, cond, v, tr).code|, end, start,
                        Branch64(ls, t, cond, v, tr).tr.loads)
    ensures AllSafe(ls, p, f, at, at + |Branch64(ls, t, cond, v, tr).code|)
    ensures tr.loads <= f[at]
  {
    hide Preservation.Holding, Annotated, AllSafe;
    var lo, hi := v, v + 1;
    AfterBranch(ls, t, cond, Val(v, true), tr);
    match cond
    case Always => SafeBranch32(p, f, at, ls, t, Always, 0, tr, end, start);
    case Less => SafeBranch32(p, f, at, ls, t, Less, hi, tr, end, start);
    case LEqual => SafeLEqual(p, f, at, ls, t, v, tr, end, start);
    case Greater => SafeGreater(p, f, at, ls, t, v, tr, end, start);
    case GEqual => SafeTwoBranches(p, f, at, ls, Ahead(|Branch32(ls, t, Always, 0, Tested(ls, Less, hi, tr)).code|),
                                   Less, hi,
                                   t, Always, 0, tr, end, start);
    case NEqual => SafeTwoBranches(p, f, at, ls, t, NEqual, lo, t, NEqual, hi, tr, end, start);
    case Equal => SafeTwoBranches(p, f, at, ls, Ahead(|Branch32(ls, t, Equal, hi, Tested(ls, NEqual, lo, tr)).code|),
                                  NEqual, lo,
                                  t, Equal, hi, tr, end, start);
  }

  lemma SafeTwoBranches(p: seq<Instr>, f: seq<set<Reg>>, at: nat, ls: nat, t1: Target, c1: Cond, v1: Reg,
                        t2: Target, c2: Cond, v2: Reg, tr: Ls, end: int, start: int)
    requires var a := Branch32(ls, t1, c1, v1, tr);
             var b := Branch32(ls, t2, c2, v2, Tested(ls, c1, v1, tr));
             && Placed(p, f, at, Then(a, b).code, end, start)
             && a.tr.loads == b.tr.loads
             && TargetRoom(f, t1, at + |a.code|, end, start, b.tr.loads)
             && TargetRoom(f, t2, at + |a.code| + |b.code|, end, start, b.tr.loads)
             && Room(f, at + |a.code| + |b.code|, b.tr.loads)
    ensures AllSafe(ls, p, f, at, at + |Branch32(ls, t1, c1, v1, tr).code|
                                    + |Branch32(ls, t2, c2, v2, Tested(ls, c1, v1, tr)).code|)
    ensures tr.loads <= f[at]
  {
    hide Preservation.Holding, Annotated, AllSafe;
    var a := Branch32(ls, t1, c1, v1, tr);
    var b := Branch32(ls, t2, c2, v2, Tested(ls, c1, v1, tr));
    PlacedConcat(p, f, at, a.code, b.code, end, start);
    SafeBranch32(p, f, at + |a.code|, ls, t2, c2, v2, Tested(ls, c1, v1, tr), end, start);
    SafePairOfBranches(p, f, at, ls, t1, c1, v1, tr, b, end, start);
  }

  lemma SafeLEqual(p: seq<Instr>, f: seq<set<Reg>>, at: nat, ls: nat, t: Target, v: Reg, tr: Ls, end: int, start: int)
    requires SplitOk(LEqual, Val(v, true), tr) && !t.Ahead?
    requires Placed(p, f, at, Branch64(ls, t, LEqual, v, tr).code, end, start)
    requires BranchRoom(f, t, at + |Branch64(ls, t, LEqual, v, tr).code|, end, start,
                        Branch64(ls, t, LEqual, v, tr).tr.loads)
    ensures AllSafe(ls, p, f, at, at + |Branch64(ls, t, LEqual, v, tr).code|)
    ensures tr.loads <= f[at]
  {
    hide Preservation.Holding, Annotated, AllSafe;
    var lo, hi := v, v + 1;
    AfterBranch(ls, t, LEqual, Val(v, true), tr);
    var t1 := Tested(ls, Less, hi, tr);
    var t2 := Tested(ls, NEqual, hi, t1);
    var first, last := Branch32(ls, t, Less, hi, tr), Branch32(ls, t, Equal, lo, t2);
    var skip := Branch32(ls, Ahead(|last.code|), NEqual, hi, t1);
    var here := at + |first.code|;
    PlacedConcat(p, f, at, first.code, skip.code + last.code, end, start);
    PlacedConcat(p, f, here, skip.code, last.code, end, start);
    SafeBranch32(p, f, here + |skip.code|, ls, t, Equal, lo, t2, end, start);
    SafePairOfBranches(p, f, here, ls, Ahead(|last.code|), NEqual, hi, t1, last, end, start);
    SafePairOfBranches(p, f, at, ls, t, Less, hi, tr, Then(skip, last), end, start);
  }

  lemma SafeGreater(p: seq<Instr>, f: seq<set<Reg>>, at: nat, ls: nat, t: Target, v: Reg, tr: Ls, end: int, start: int)
    requires SplitOk(Greater, Val(v, true), tr) && !t.Ahead?
    requires Placed(p, f, at, Branch64(ls, t, Greater, v, tr).code, end, start)
    requires BranchRoom(f, t, at + |Branch64(ls, t, Greater, v, tr).code|, end, start,
                        Branch64(ls, t, Greater, v, tr).tr.loads)
    ensures AllSafe(ls, p, f, at, at + |Branch64(ls, t, Greater, v, tr).code|)
    ensures tr.loads <= f[at]
  {
    hide Preservation.Holding, Annotated, AllSafe;
    var lo, hi := v, v + 1;
    AfterBranch(ls, t, Greater, Val(v, true), tr);
    var t1 := Tested(ls, Less, hi, tr);
    var t2 := Tested(ls, NEqual, hi, t1);
    var mid, last := Branch32(ls, t, NEqual, hi, t1), Branch32(ls, t, NEqual, lo, t2);
    var over := Then(mid, last);
    var skip := Branch32(ls, Ahead(|over.code|), Less, hi, tr);
    var here := at + |skip.code|;
    PlacedConcat(p, f, at, skip.code, over.code, end, start);
    PlacedConcat(p, f, here, mid.code, last.code, end, start);
    SafeBranch32(p, f, here + |mid.code|, ls, t, NEqual, lo, t2, end, start);
    SafePairOfBranches(p, f, here, ls, t, NEqual, hi, t1, last, end, start);
    SafePairOfBranches(p, f, at, ls, Ahead(|over.code|), Less, hi, tr, over, end, start);
  }

  lemma SafeBranch(p: seq<Instr>, f: seq<set<Reg>>, at: nat, ls: nat, t: Target, cond: Cond, v: Val, tr: Ls, end: int,
                   start: int)
    requires SplitOk(cond, v, tr) && !t.Ahead?
    requires Placed(p, f, at, GenBranch(ls, t, cond, v, tr).code, end, start)
    requires BranchRoom(f, t, at + |GenBranch(ls, t, cond, v, tr).code|, end, start,
                        GenBranch(ls, t, cond, v, tr).tr.loads)
    ensures AllSafe(ls, p, f, at, at + |GenBranch(ls, t, cond, v, tr).code|)
    ensures tr.loads <= f[at]
  {
    if v.wide {
      SafeBranch64(p, f, at, ls, t, cond, v.reg, tr, end, start);
    } else {
      SafeBranch32(p, f, at, ls, t, cond, v.reg, tr, end, start);
    }
  }

  // ----- Statements ------------------------------------------------------------------------------

  /** When the tracker is right for a program: each 64-bit condition is `SplitOk`; after an `else` the
      tracker still covers what its `if` left in flight; and the test of a case after the first either
      waits or is on registers that were not in flight at the match. */
  predicate Covered(ls: nat, s: Stmt, g: Ctx, head: Ls)
    decreases s
  {
    match s
    case Seq(a, b) => Covered(ls, a, g, head) && Covered(ls, b, Gen(ls, a, g, head).ctx, head)
    case If(cond, v, t) =>
      var q := GenBranch(ls, End, Invert(cond), v, g.tr);
      SplitOk(Invert(cond), v, g.tr) && Covered(ls, t, Ctx(q.tr, g.ifLs, false), head)
    case IfElse(cond, v, t, e) =>
      var q := GenBranch(ls, End, Invert(cond), v, g.tr);
      var x := Gen(ls, t, Ctx(q.tr, g.ifLs, false), head);
      && SplitOk(Invert(cond), v, g.tr)
      && Covered(ls, t, Ctx(q.tr, g.ifLs, false), head)
      && Covered(ls, e, ElseCtx(q, x), head)
      && ElseCovers(x, Gen(ls, e, ElseCtx(q, x), head))
    case While(cond, v, body) =>
      var q := if cond == Always then Piece([], g.tr) else GenBranch(ls, End, Invert(cond), v, g.tr);
      var g1 := Ctx(q.tr, g.ifLs, false);
      && (cond == Always || SplitOk(Invert(cond), v, g.tr))
      && Covered(ls, body, g1, q.tr)
      && SplitOk(cond, v, LoopWait(ls, q, Gen(ls, body, g1, q.tr)).tr)
    case BreakIf(cond, v) => SplitOk(cond, v, g.tr)
    case ContinueIf(cond, v) => SplitOk(cond, v, WaitIf(ls, g.tr.loads - head.loads != {}, g.tr).tr)
    case Match(v, scratch, cs) => CoveredCases(ls, v, scratch, cs, true, g.tr, IDLE, g.(pend := false), head)
    case Maybe(_, body) => Covered(ls, body, g.(pend := false), head)
    case _ => true
  }

  /** The tracker after an `else` is the union of what `pending_if` holds by then and the tracker of the
      `else` body: it covers the `if` body unless an `if` inside the `else` body has overwritten the
      former and a WAIT has emptied the latter. */
  predicate ElseCovers(x: Out, y: Out) {
    x.ctx.tr.loads <= y.ctx.ifLs.loads + y.ctx.tr.loads
  }

  predicate TestCovered(v: Reg, scratch: Reg, id: Word, tr: Ls, view: set<Reg>) {
    if id == 0 then v in tr.loads || v !in view
    else
      var sub := AddImm32(scratch, v, 0 - id);
      Clash(sub, tr.loads) || !Clash(sub, view)
  }

  predicate CoveredCases(ls: nat, v: Reg, scratch: Reg, cs: Cases, first: bool, orig: Ls, acc: Ls, g: Ctx, head: Ls)
    decreases cs
  {
    match cs
    case NoCase => true
    case Default(body) => Covered(ls, body, Ctx(orig, g.ifLs, false), head)
    case Case(id, body, rest) =>
      var view := if first then g.tr.loads else orig.loads;
      var q := GenTest(ls, v, scratch, id, 0, g.tr, view);
      var orig' := if first then q.tr else orig;
      var x := Gen(ls, body, Ctx(orig', g.ifLs, false), head);
      && TestCovered(v, scratch, id, g.tr, view)
      && Covered(ls, body, Ctx(orig', g.ifLs, false), head)
      && CoveredCases(ls, v, scratch, rest, false, orig', Join(acc, x.ctx.tr), x.ctx, head)
  }

  /** The first instruction of a statement is emitted under the tracker the statement starts with. */
  lemma {:induction false} Opening(ls: nat, s: Stmt, g: Ctx, head: Ls)
    ensures var o := Gen(ls, s, g, head);
            if o.code == [] then o.ctx.tr.loads == g.tr.loads else o.code[0].loads == g.tr.loads
    decreases s, 0
  {
    hide Clash;
    match s
    case Seq(a, b) =>
      Opening(ls, a, g, head);
      Opening(ls, b, Gen(ls, a, g, head).ctx, head);
    case If(cond, v, t) => OpeningBranch(ls, End, Invert(cond), v, g.tr);
    case IfElse(cond, v, t, e) => OpeningBranch(ls, End, Invert(cond), v, g.tr);
    case While(cond, v, body) => OpeningWhile(ls, cond, v, body, g);
    case BreakIf(cond, v) => OpeningBranch(ls, End, cond, v, g.tr);
    case ContinueIf(cond, v) => OpeningBranch(ls, Start, cond, v, WaitIf(ls, g.tr.loads - head.loads != {}, g.tr).tr);
    case Match(v, scratch, cs) => if cs.Default? { Opening(ls, cs.body, Ctx(g.tr, g.ifLs, false), head); }
    case Maybe(patched, body) => Opening(ls, body, g.(pend := false), head);
    case _ =>
  }

  lemma OpeningBranch(ls: nat, t: Target, cond: Cond, v: Val, tr: Ls)
    ensures var q := GenBranch(ls, t, cond, v, tr);
            q.code != [] && q.code[0].loads == tr.loads
  {
  }

  lemma {:induction false} OpeningWhile(ls: nat, cond: Cond, v: Val, body: Stmt, g: Ctx)
    ensures var o := Gen(ls, While(cond, v, body), g, IDLE);
            o.code != [] && o.code[0].loads == g.tr.loads
    ensures var q := if cond == Always then Piece([], g.tr) else GenBranch(ls, End, Invert(cond), v, g.tr);
            var x := Gen(ls, body, Ctx(q.tr, g.ifLs, false), q.tr);
            var w := LoopWait(ls, q, x);
            var back := GenBranch(ls, Start, cond, v, w.tr);
            (x.code + (w.code + back.code))[0].loads == q.tr.loads
    decreases body, 1
  {
    hide GenBranch;
    var q := if cond == Always then Piece([], g.tr) else GenBranch(ls, End, Invert(cond), v, g.tr);
    Opening(ls, body, Ctx(q.tr, g.ifLs, false), q.tr);
    var x := Gen(ls, body, Ctx(q.tr, g.ifLs, false), q.tr);
    OpeningBranch(ls, Start, cond, v, LoopWait(ls, q, x).tr);
    if cond != Always { OpeningBranch(ls, End, Invert(cond), v, g.tr); }
  }

  /** Control enters a statement with no more in flight than its tracker knows. */
  lemma Entry(p: seq<Instr>, f: seq<set<Reg>>, at: nat, ls: nat, s: Stmt, g: Ctx, head: Ls, end: int, start: int)
    requires Placed(p, f, at, Gen(ls, s, g, head).code, end, start)
    requires Room(f, at + |Gen(ls, s, g, head).code|, Gen(ls, s, g, head).ctx.tr.loads)
    ensures Room(f, at, g.tr.loads)
  {
    hide Gen, Preservation.Holding;
    Opening(ls, s, g, head);
    var code := Gen(ls, s, g, head).code;
    if code != [] { assert f[at + 0] == code[0].loads; }
  }

  /** What a statement needs around it. */
  ghost predicate StmtRoom(f: seq<set<Reg>>, after: nat, o: Out, brk: bool, end: int, cont: bool, start: int,
                           head: Ls) {
    && Room(f, after, o.ctx.tr.loads)
    && (brk ==> Room(f, end, o.div.loads))
    && (cont ==> Room(f, start, head.loads))
  }

  lemma {:induction false} SafeStmt(p: seq<Instr>, f: seq<set<Reg>>, at: nat, ls: nat, s: Stmt, brk: bool, cont: bool,
                                    g: Ctx, head: Ls, end: int, start: int)
    requires WellFormed(s, brk, cont) && Covered(ls, s, g, head)
    requires Placed(p, f, at, Gen(ls, s, g, head).code, end, start)
    requires StmtRoom(f, at + |Gen(ls, s, g, head).code|, Gen(ls, s, g, head), brk, end, cont, start, head)
    ensures AllSafe(ls, p, f, at, at + |Gen(ls, s, g, head).code|)
    decreases s, 1
  {
    hide Preservation.Holding, Annotated, AllSafe, GenBranch, Clash, After, GenCases, CoveredCases, OutIf, OutIfElse,
         OutWhile, OutMaybe;
    match s
    case Skip => AllSafeEmpty(ls, p, f, at);
    case Op(i) => SafeOp(p, f, at, ls, i, g.tr, end, start);
    case FlushLoads => SafeWait(p, f, at, ls, g.tr.loads != {}, g.tr, end, start);
    case FlushStores => SafeWait(p, f, at, ls, g.tr.stores, g.tr, end, start);
    case Seq(a, b) => SafeSeq(p, f, at, ls, a, b, brk, cont, g, head, end, start);
    case If(cond, v, t) => SafeIf(p, f, at, ls, cond, v, t, brk, cont, g, head, end, start);
    case IfElse(cond, v, t, e) => SafeIfElse(p, f, at, ls, cond, v, t, e, brk, cont, g, head, end, start);
    case While(cond, v, body) => SafeWhile(p, f, at, ls, cond, v, body, g, end, start);
    case BreakIf(cond, v) => SafeBranch(p, f, at, ls, End, cond, v, g.tr, end, start);
    case ContinueIf(cond, v) =>
      SafeWaitBranch(p, f, at, ls, g.tr.loads - head.loads != {}, cond, v, g.tr, head.loads, end, start);
    case Match(v, scratch, cs) =>
      SafeCases(p, f, at, ls, v, scratch, cs, brk, cont, true, g.tr, IDLE, g.(pend := false), head, end, start);
    case Maybe(patched, body) => SafeMaybe(p, f, at, ls, patched, body, cont, g, head, end, start);
  }

  lemma AllSafeEmpty(ls: nat, p: seq<Instr>, f: seq<set<Reg>>, at: nat)
    requires |f| == |p| + 1 && at <= |p|
    ensures AllSafe(ls, p, f, at, at)
  {
  }

  lemma AllSafeJoin(ls: nat, p: seq<Instr>, f: seq<set<Reg>>, lo: nat, mid: nat, hi: nat)
    requires |f| == |p| + 1 && lo <= mid <= hi <= |p|
    requires AllSafe(ls, p, f, lo, mid) && AllSafe(ls, p, f, mid, hi)
    ensures AllSafe(ls, p, f, lo, hi)
  {
  }

  lemma NothingNew(a: set<Reg>, b: set<Reg>)
    requires a - b == {}
    ensures a <= b
  {
    assert forall r :: r in a && r !in b ==> r in a - b;
  }

  /** The back branch of a loop, after the wait for loads the loop head does not know about. */
  lemma SafeWaitBranch(p: seq<Instr>, f: seq<set<Reg>>, at: nat, ls: nat, need: bool, cond: Cond, v: Val, tr: Ls,
                       headLoads: set<Reg>, end: int, start: int)
    requires need <==> tr.loads - headLoads != {}
    requires var w := WaitIf(ls, need, tr);
             var q := GenBranch(ls, Start, cond, v, w.tr);
             && SplitOk(cond, v, w.tr)
             && Placed(p, f, at, w.code + q.code, end, start)
             && Room(f, at + |w.code| + |q.code|, q.tr.loads)
    requires Room(f, start, headLoads)
    ensures var w := WaitIf(ls, need, tr);
            AllSafe(ls, p, f, at, at + |w.code| + |GenBranch(ls, Start, cond, v, w.tr).code|)
    ensures tr.loads <= f[at]
  {
    hide Preservation.Holding, Annotated, AllSafe, GenBranch;
    var w := WaitIf(ls, need, tr);
    var q := GenBranch(ls, Start, cond, v, w.tr);
    AfterBranch(ls, Start, cond, v, w.tr);
    if !need { NothingNew(tr.loads, headLoads); }
    PlacedConcat(p, f, at, w.code, q.code, end, start);
    SafeBranch(p, f, at + |w.code|, ls, Start, cond, v, w.tr, end, start);
    SafeWait(p, f, at, ls, need, tr, end, start);
    AllSafeJoin(ls, p, f, at, at + |w.code|, at + |w.code| + |q.code|);
  }

  lemma {:induction false} SafeSeq(p: seq<Instr>, f: seq<set<Reg>>, at: nat, ls: nat, a: Stmt, b: Stmt, brk: bool,
                                   cont: bool, g: Ctx, head: Ls, end: int, start: int)
    requires WellFormed(a, brk, cont) && WellFormed(b, brk, cont)
    requires Covered(ls, a, g, head) && Covered(ls, b, Gen(ls, a, g, head).ctx, head)
    requires var x := Gen(ls, a, g, head);
             var y := Gen(ls, b, x.ctx, head);
             && Placed(p, f, at, x.code + y.code, end, start)
             && StmtRoom(f, at + |x.code| + |y.code|, y.(div := Join(x.div, y.div)), brk, end, cont, start, head)
    ensures var x := Gen(ls, a, g, head);
            AllSafe(ls, p, f, at, at + |x.code| + |Gen(ls, b, x.ctx, head).code|)
    decreases Stmt.Seq(a, b), 0
  {
    hide Gen, Covered, WellFormed, Preservation.Holding, Annotated, AllSafe;
    var x := Gen(ls, a, g, head);
    var y := Gen(ls, b, x.ctx, head);
    PlacedConcat(p, f, at, x.code, y.code, end, start);
    SafeStmt(p, f, at + |x.code|, ls, b, brk, cont, x.ctx, head, end, start);
    Entry(p, f, at + |x.code|, ls, b, x.ctx, head, end, start);
    SafeStmt(p, f, at, ls, a, brk, cont, g, head, end, start);
    AllSafeJoin(ls, p, f, at, at + |x.code|, at + |x.code| + |y.code|);
  }

  lemma {:induction false} SafeMaybe(p: seq<Instr>, f: seq<set<Reg>>, at: nat, ls: nat, patched: bool, body: Stmt,
                                     cont: bool, g: Ctx, head: Ls, end: int, start: int)
    requires WellFormed(body, false, cont) && Covered(ls, body, g.(pend := false), head)
    requires var o := OutMaybe(ls, patched, g.tr, Gen(ls, body, g.(pend := false), head));
             && Placed(p, f, at, o.code, end, start)
             && StmtRoom(f, at + |o.code|, o, false, end, cont, start, head)
    ensures AllSafe(ls, p, f, at, at + |OutMaybe(ls, patched, g.tr, Gen(ls, body, g.(pend := false), head)).code|)
    decreases Stmt.Maybe(patched, body), 0
  {
    hide Gen, Covered, WellFormed;
    var x := Gen(ls, body, g.(pend := false), head);
    var need := x.ctx.tr.loads - g.tr.loads != {} || (x.ctx.tr.stores && !g.tr.stores);
    var w := WaitIf(ls, need, x.ctx.tr);
    if patched {
      PlacedConcat(p, f, at, x.code, w.code, end, start);
      if !need { NothingNew(x.ctx.tr.loads, g.tr.loads); }
      SafeWait(p, f, at + |x.code|, ls, need, x.ctx.tr, end, start);
      SafeStmt(p, f, at, ls, body, false, cont, g.(pend := false), head, end, start);
    } else {
      SafeBlank(p, f, at, ls, |x.code + w.code|, g.tr.loads, end, start);
    }
  }

  lemma SafeBlank(p: seq<Instr>, f: seq<set<Reg>>, at: nat, ls: nat, n: nat, loads: set<Reg>, end: int, start: int)
    requires Placed(p, f, at, Blank(n, loads), end, start) && loads <= f[at + n]
    ensures AllSafe(ls, p, f, at, at + n)
  {
    forall i | at <= i < at + n ensures Safe(ls, p, f, i) {
      var b := Blank(n, loads);
      assert p[at + (i - at)] == Place(b[i - at], i, end, start) && f[at + (i - at)] == b[i - at].loads;
      if i + 1 < at + n { assert f[at + (i + 1 - at)] == b[i + 1 - at].loads; }
    }
  }

  lemma {:induction false} SafeIf(p: seq<Instr>, f: seq<set<Reg>>, at: nat, ls: nat, cond: Cond, v: Val, t: Stmt,
                                  brk: bool, cont: bool, g: Ctx, head: Ls, end: int, start: int)
    requires cond != Always && WellFormed(t, brk, cont)
    requires var q := GenBranch(ls, End, Invert(cond), v, g.tr);
             var g1 := Ctx(q.tr, g.ifLs, false);
             var o := OutIf(q, Gen(ls, t, g1, head));
             && SplitOk(Invert(cond), v, g.tr) && Covered(ls, t, g1, head)
             && Placed(p, f, at, o.code, end, start)
             && StmtRoom(f, at + |o.code|, o, brk, end, cont, start, head)
    ensures var q := GenBranch(ls, End, Invert(cond), v, g.tr);
            AllSafe(ls, p, f, at, at + |OutIf(q, Gen(ls, t, Ctx(q.tr, g.ifLs, false), head)).code|)
    decreases Stmt.If(cond, v, t), 0
  {
    hide Gen, Covered, WellFormed, GenBranch, SplitOk, Preservation.Holding, Annotated, AllSafe;
    var q := GenBranch(ls, End, Invert(cond), v, g.tr);
    var g1 := Ctx(q.tr, g.ifLs, false);
    var x := Gen(ls, t, g1, head);
    var e := |q.code| + |x.code|;
    PlacedConcat(p, f, at, Resolve(q.code, e, 0), x.code, end, start);
    PlacedResolved(p, f, at, q.code, e, 0, end, start);
    SafeStmt(p, f, at + |q.code|, ls, t, brk, cont, g1, head, end, start);
    Entry(p, f, at + |q.code|, ls, t, g1, head, end, start);
    SafeBranch(p, f, at, ls, End, Invert(cond), v, g.tr, at + e, at);
    AllSafeJoin(ls, p, f, at, at + |q.code|, at + e);
  }

  lemma {:induction false} SafeIfElse(p: seq<Instr>, f: seq<set<Reg>>, at: nat, ls: nat, cond: Cond, v: Val, t: Stmt,
                                      u: Stmt, brk: bool, cont: bool, g: Ctx, head: Ls, end: int, start: int)
    requires cond != Always && WellFormed(t, brk, cont) && WellFormed(u, brk, cont)
    requires var q := GenBranch(ls, End, Invert(cond), v, g.tr);
             var g1 := Ctx(q.tr, g.ifLs, false);
             var x := Gen(ls, t, g1, head);
             var y := Gen(ls, u, ElseCtx(q, x), head);
             var o := OutIfElse(q, x, y);
             && SplitOk(Invert(cond), v, g.tr) && Covered(ls, t, g1, head) && Covered(ls, u, ElseCtx(q, x), head)
             && ElseCovers(x, y)
             && Placed(p, f, at, o.code, end, start)
             && StmtRoom(f, at + |o.code|, o, brk, end, cont, start, head)
    ensures var q := GenBranch(ls, End, Invert(cond), v, g.tr);
            var x := Gen(ls, t, Ctx(q.tr, g.ifLs, false), head);
            AllSafe(ls, p, f, at, at + |OutIfElse(q, x, Gen(ls, u, ElseCtx(q, x), head)).code|)
    decreases Stmt.IfElse(cond, v, t, u), 0
  {
    hide Gen, Covered, WellFormed, GenBranch, SplitOk, Preservation.Holding, Annotated, AllSafe;
    var q := GenBranch(ls, End, Invert(cond), v, g.tr);
    var g1 := Ctx(q.tr, g.ifLs, false);
    var x := Gen(ls, t, g1, head);
    var y := Gen(ls, u, ElseCtx(q, x), head);
    var e := |q.code| + |x.code| + 1;
    var away := Emit(Branch(|y.code|, Always, 0), x.ctx.tr.loads);
    PlacedConcat(p, f, at, Resolve(q.code, e, 0) + x.code + [away], y.code, end, start);
    PlacedConcat(p, f, at, Resolve(q.code, e, 0) + x.code, [away], end, start);
    PlacedConcat(p, f, at, Resolve(q.code, e, 0), x.code, end, start);
    PlacedResolved(p, f, at, q.code, e, 0, end, start);
    SafeStmt(p, f, at + e, ls, u, brk, cont, ElseCtx(q, x), head, end, start);
    Entry(p, f, at + e, ls, u, ElseCtx(q, x), head, end, start);
    SafeAway(p, f, at + e - 1, ls, |y.code|, x.ctx.tr.loads, end, start);
    SafeStmt(p, f, at + |q.code|, ls, t, brk, cont, g1, head, end, start);
    Entry(p, f, at + |q.code|, ls, t, g1, head, end, start);
    SafeBranch(p, f, at, ls, End, Invert(cond), v, g.tr, at + e, at);
    AllSafeJoin(ls, p, f, at, at + |q.code|, at + e - 1);
    AllSafeJoin(ls, p, f, at, at + e - 1, at + e);
    AllSafeJoin(ls, p, f, at, at + e, at + e + |y.code|);
  }

  lemma SafeAway(p: seq<Instr>, f: seq<set<Reg>>, at: nat, ls: nat, k: nat, loads: set<Reg>, end: int, start: int)
    requires Placed(p, f, at, [Emit(Branch(k, Always, 0), loads)], end, start)
    requires Room(f, at + 1 + k, loads)
    ensures AllSafe(ls, p, f, at, at + 1)
    ensures f[at] == loads
  {
    PlacedOne(p, f, at, Emit(Branch(k, Always, 0), loads), end, start);
  }

  lemma {:induction false} SafeWhile(p: seq<Instr>, f: seq<set<Reg>>, at: nat, ls: nat, cond: Cond, v: Val, body: Stmt,
                                     g: Ctx, end: int, start: int)
    requires WellFormed(body, true, true)
    requires Covered(ls, While(cond, v, body), g, IDLE)
    requires var o := Gen(ls, While(cond, v, body), g, IDLE);
             && Placed(p, f, at, o.code, end, start)
             && Room(f, at + |o.code|, o.ctx.tr.loads)
    ensures AllSafe(ls, p, f, at, at + |Gen(ls, While(cond, v, body), g, IDLE).code|)
    decreases While(cond, v, body), 0
  {
    hide WellFormed, GenBranch, SplitOk, Preservation.Holding, Annotated, AllSafe;
    var q := if cond == Always then Piece([], g.tr) else GenBranch(ls, End, Invert(cond), v, g.tr);
    var g1 := Ctx(q.tr, g.ifLs, false);
    var x := Gen(ls, body, g1, q.tr);
    var w := LoopWait(ls, q, x);
    var back := GenBranch(ls, Start, cond, v, w.tr);
    var inner := q.code + x.code + w.code + back.code;
    var e, l := at + |inner|, at + |q.code|;
    PlacedResolved(p, f, at, inner, |inner|, |q.code|, end, start);
    assert inner == q.code + (x.code + (w.code + back.code));
    PlacedConcat(p, f, at, q.code, x.code + (w.code + back.code), e, l);
    OpeningWhile(ls, cond, v, body, g);
    OpeningBranch(ls, Start, cond, v, w.tr);
    PlacedFirst(p, f, l, x.code + (w.code + back.code), e, l);
    SafeLoopBody(p, f, l, ls, cond, v, body, q, g1, e);
    if cond == Always {
      AllSafeEmpty(ls, p, f, at);
    } else {
      SafeBranch(p, f, at, ls, End, Invert(cond), v, g.tr, e, l);
    }
    AllSafeJoin(ls, p, f, at, l, e);
  }

  lemma PlacedFirst(p: seq<Instr>, f: seq<set<Reg>>, at: nat, code: seq<Item>, end: int, start: int)
    requires Placed(p, f, at, code, end, start) && code != []
    ensures f[at] == code[0].loads
  {
    assert f[at + 0] == code[0].loads;
  }

  /** The back edge invariant of a loop: what is in flight at its head on every pass is within what was
      in flight when the loop was entered. */
  lemma {:induction false} SafeLoopBody(p: seq<Instr>, f: seq<set<Reg>>, l: nat, ls: nat, cond: Cond, v: Val,
                                        body: Stmt, q: Piece, g1: Ctx, e: nat)
    requires WellFormed(body, true, true) && g1.tr == q.tr
    requires Covered(ls, body, g1, q.tr)
    requires var x := Gen(ls, body, g1, q.tr);
             var w := LoopWait(ls, q, x);
             var back := GenBranch(ls, Start, cond, v, w.tr);
             && SplitOk(cond, v, w.tr)
             && Placed(p, f, l, x.code + (w.code + back.code), e, l)
             && e == l + |x.code| + |w.code| + |back.code|
             && Room(f, e, back.tr.loads) && Room(f, e, x.div.loads)
    requires Room(f, l, q.tr.loads)
    ensures AllSafe(ls, p, f, l, e)
    decreases body, 2
  {
    hide Gen, Covered, WellFormed, GenBranch, SplitOk, Preservation.Holding, Annotated, AllSafe;
    var x := Gen(ls, body, g1, q.tr);
    var need := x.ctx.tr.loads - q.tr.loads != {};
    var w := WaitIf(ls, need, x.ctx.tr);
    var back := GenBranch(ls, Start, cond, v, w.tr);
    PlacedConcat(p, f, l, x.code, w.code + back.code, e, l);
    SafeWaitBranch(p, f, l + |x.code|, ls, need, cond, v, x.ctx.tr, q.tr.loads, e, l);
    SafeStmt(p, f, l, ls, body, true, true, g1, q.tr, e, l);
    AllSafeJoin(ls, p, f, l, l + |x.code|, e);
  }

  lemma ClashOfTest(v: Reg, scratch: Reg, imm: int, k: int, ls: nat, s: set<Reg>)
    ensures Clash(AddImm32(scratch, v, imm), s) <==> v in s || scratch in s
    ensures Clash(Branch(k, NEqual, v), s) <==> v in s
    ensures !Clash(Wait({ls}), s)
  {
    assert Operands(AddImm32(scratch, v, imm)) == [{scratch}, {v}];
    assert Operands(Branch(k, NEqual, v)) == [{v}];
    if v in s { assert v in Operands(AddImm32(scratch, v, imm))[1] * s && v in Operands(Branch(k, NEqual, v))[0] * s; }
    if scratch in s { assert scratch in Operands(AddImm32(scratch, v, imm))[0] * s; }
  }

  lemma SafeTest(p: seq<Instr>, f: seq<set<Reg>>, at: nat, ls: nat, v: Reg, scratch: Reg, id: Word, k: nat, tr: Ls,
                 view: set<Reg>, after: set<Reg>, end: int, start: int)
    requires var q := GenTest(ls, v, scratch, id, k, tr, view);
             && Placed(p, f, at, q.code, end, start)
             && Room(f, at + |q.code|, after) && Room(f, at + |q.code| + k, after)
    requires TestCovered(v, scratch, id, tr, view)
    requires view <= after || (if id == 0 then v in tr.loads else Clash(AddImm32(scratch, v, 0 - id), tr.loads))
    ensures AllSafe(ls, p, f, at, at + |GenTest(ls, v, scratch, id, k, tr, view).code|)
    ensures f[at] == view
  {
    hide Preservation.Holding, Annotated, Clash;
    var sub := AddImm32(scratch, v, 0 - id);
    var need := if id == 0 then v in tr.loads else Clash(sub, tr.loads);
    var wait := if need then [Emit(Wait({ls}), view)] else [];
    var seen := if need then {} else view;
    var here := at + |wait|;
    ClashOfTest(v, scratch, 0 - id, k, ls, view);
    ClashOfTest(v, scratch, 0 - id, k, ls, seen);
    if id == 0 {
      PlacedConcat(p, f, at, wait, [Emit(Branch(k, NEqual, v), seen)], end, start);
      PlacedOne(p, f, here, Emit(Branch(k, NEqual, v), seen), end, start);
      assert Safe(ls, p, f, here);
    } else {
      var two := [Emit(sub, seen), Emit(Branch(k, NEqual, scratch), seen)];
      assert two == [Emit(sub, seen)] + [Emit(Branch(k, NEqual, scratch), seen)];
      PlacedConcat(p, f, at, wait, two, end, start);
      PlacedConcat(p, f, here, [Emit(sub, seen)], [Emit(Branch(k, NEqual, scratch), seen)], end, start);
      PlacedOne(p, f, here, Emit(sub, seen), end, start);
      PlacedOne(p, f, here + 1, Emit(Branch(k, NEqual, scratch), seen), end, start);
      ClashOfTest(scratch, v, 0, k, ls, seen);
      assert Safe(ls, p, f, here) && Safe(ls, p, f, here + 1);
    }
    if need {
      PlacedOne(p, f, at, Emit(Wait({ls}), view), end, start);
      assert Safe(ls, p, f, at);
    }
  }

  /** The tracker after a match covers every case already closed. */
  lemma {:induction false} CasesKeep(ls: nat, v: Reg, scratch: Reg, cs: Cases, first: bool, orig: Ls, acc: Ls, g: Ctx,
                                     head: Ls)
    ensures acc.loads <= GenCases(ls, v, scratch, cs, first, orig, acc, g, head).ctx.tr.loads
    decreases cs
  {
    hide Gen;
    match cs
    case Case(id, body, rest) =>
      var q := GenTest(ls, v, scratch, id, 0, g.tr, if first then g.tr.loads else orig.loads);
      var orig' := if first then q.tr else orig;
      var x := Gen(ls, body, Ctx(orig', g.ifLs, false), head);
      CasesKeep(ls, v, scratch, rest, false, orig', Join(acc, x.ctx.tr), x.ctx, head);
    case _ =>
  }

  lemma {:induction false} SafeCases(p: seq<Instr>, f: seq<set<Reg>>, at: nat, ls: nat, v: Reg, scratch: Reg, cs: Cases,
                                     brk: bool, cont: bool, first: bool, orig: Ls, acc: Ls, g: Ctx, head: Ls, end: int,
                                     start: int)
    requires WellFormedCases(cs, brk, cont) && CoveredCases(ls, v, scratch, cs, first, orig, acc, g, head)
    requires first ==> orig == g.tr
    requires var o := GenCases(ls, v, scratch, cs, first, orig, acc, g, head);
             && Placed(p, f, at, o.code, end, start)
             && StmtRoom(f, at + |o.code|, o, brk, end, cont, start, head)
    ensures AllSafe(ls, p, f, at, at + |GenCases(ls, v, scratch, cs, first, orig, acc, g, head).code|)
    ensures Room(f, at, orig.loads)
    decreases cs, 1
  {
    hide Gen, Covered, WellFormed, Preservation.Holding, Annotated, AllSafe;
    match cs
    case NoCase => AllSafeEmpty(ls, p, f, at);
    case Default(body) =>
      SafeStmt(p, f, at, ls, body, brk, cont, Ctx(orig, g.ifLs, false), head, end, start);
      Entry(p, f, at, ls, body, Ctx(orig, g.ifLs, false), head, end, start);
    case Case(id, body, rest) =>
      SafeCase(p, f, at, ls, v, scratch, id, body, rest, brk, cont, first, orig, acc, g, head, end, start);
  }

  lemma PlacedSize(p: seq<Instr>, f: seq<set<Reg>>, at: nat, code: seq<Item>, end: int, start: int)
    requires Placed(p, f, at, code, end, start)
    ensures |f| == |p| + 1 && at + |code| <= |p|
  {
  }

  /** What is behind the body of a case: nothing, or the branch out of the match and the other cases. */
  lemma {:induction false} SafeRest(p: seq<Instr>, f: seq<set<Reg>>, at: nat, ls: nat, v: Reg, scratch: Reg,
                                    rest: Cases,
                                    brk: bool, cont: bool, orig: Ls, acc: Ls, g: Ctx, head: Ls, end: int, start: int)
    requires WellFormedCases(rest, brk, cont) && CoveredCases(ls, v, scratch, rest, false, orig, acc, g, head)
    requires g.tr.loads <= acc.loads
    requires var y := GenCases(ls, v, scratch, rest, false, orig, acc, g, head);
             var tail := if rest.NoCase? then [] else [Emit(Branch(|y.code|, Always, 0), g.tr.loads)] + y.code;
             && Placed(p, f, at, tail, end, start) && StmtRoom(f, at + |tail|, y, brk, end, cont, start, head)
    ensures var y := GenCases(ls, v, scratch, rest, false, orig, acc, g, head);
            && AllSafe(ls, p, f, at, at + |y.code| + if rest.NoCase? then 0 else 1)
            && Room(f, at, g.tr.loads) && Room(f, at + (if rest.NoCase? then 0 else 1), orig.loads)
    decreases rest, 2
  {
    hide Placed, AllSafe, CoveredCases, Gen;
    var y := GenCases(ls, v, scratch, rest, false, orig, acc, g, head);
    var away := Emit(Branch(|y.code|, Always, 0), g.tr.loads);
    CasesKeep(ls, v, scratch, rest, false, orig, acc, g, head);
    if rest.NoCase? {
      PlacedSize(p, f, at, [], end, start);
      AllSafeEmpty(ls, p, f, at);
    } else {
      hide GenCases;
      PlacedSize(p, f, at, [away] + y.code, end, start);
      PlacedConcat(p, f, at, [away], y.code, end, start);
      SafeCases(p, f, at + 1, ls, v, scratch, rest, brk, cont, false, orig, acc, g, head, end, start);
      SafeAway(p, f, at, ls, |y.code|, g.tr.loads, end, start);
      AllSafeJoin(ls, p, f, at, at + 1, at + 1 + |y.code|);
    }
  }

  lemma {:induction false} SafeCase(p: seq<Instr>, f: seq<set<Reg>>, at: nat, ls: nat, v: Reg, scratch: Reg, id: Word,
                                    body: Stmt, rest: Cases,
                                    brk: bool, cont: bool, first: bool, orig: Ls, acc: Ls, g: Ctx, head: Ls, end: int,
                                    start: int)
    requires WellFormed(body, brk, cont) && WellFormedCases(rest, brk, cont)
    requires CoveredCases(ls, v, scratch, Case(id, body, rest), first, orig, acc, g, head)
    requires first ==> orig == g.tr
    requires var o := GenCases(ls, v, scratch, Case(id, body, rest), first, orig, acc, g, head);
             && Placed(p, f, at, o.code, end, start)
             && StmtRoom(f, at + |o.code|, o, brk, end, cont, start, head)
    ensures AllSafe(ls, p, f, at, at + |GenCases(ls, v, scratch, Case(id, body, rest), first, orig, acc, g, head).code|)
    ensures Room(f, at, orig.loads)
    decreases Case(id, body, rest), 0
  {
    hide Gen, Covered, WellFormed, Placed, AllSafe, GenCases, CoveredCases, GenTest, Clash, TestCovered;
    var view := if first then g.tr.loads else orig.loads;
    var orig' := if first then GenTest(ls, v, scratch, id, 0, g.tr, view).tr else orig;
    var g1 := Ctx(orig', g.ifLs, false);
    var x := Gen(ls, body, g1, head);
    var acc' := Join(acc, x.ctx.tr);
    var y := GenCases(ls, v, scratch, rest, false, orig', acc', x.ctx, head);
    var tail := if rest.NoCase? then [] else [Emit(Branch(|y.code|, Always, 0), x.ctx.tr.loads)] + y.code;
    var k := |x.code| + if rest.NoCase? then 0 else 1;
    var test := GenTest(ls, v, scratch, id, k, g.tr, view);
    var b, e := at + |test.code|, at + |test.code| + |x.code|;
    CaseUnfolds(ls, v, scratch, id, body, rest, first, orig, acc, g, head);
    PlacedConcat(p, f, at, test.code + x.code, tail, end, start);
    PlacedConcat(p, f, at, test.code, x.code, end, start);
    PlacedSize(p, f, e, tail, end, start);
    SafeRest(p, f, e, ls, v, scratch, rest, brk, cont, orig', acc', x.ctx, head, end, start);
    SafeStmt(p, f, b, ls, body, brk, cont, g1, head, end, start);
    Entry(p, f, b, ls, body, g1, head, end, start);
    SafeTest(p, f, at, ls, v, scratch, id, k, g.tr, view, orig'.loads, end, start);
    AllSafeJoin(ls, p, f, at, b, e);
    AllSafeJoin(ls, p, f, at, e, e + |tail|);
  }

  /** The parts of a case. */
  lemma CaseUnfolds(ls: nat, v: Reg, scratch: Reg, id: Word, body: Stmt, rest: Cases, first: bool, orig: Ls, acc: Ls,
                    g: Ctx, head: Ls)
    requires first ==> orig == g.tr
    ensures var view := if first then g.tr.loads else orig.loads;
            var orig' := if first then GenTest(ls, v, scratch, id, 0, g.tr, view).tr else orig;
            var g1 := Ctx(orig', g.ifLs, false);
            var x := Gen(ls, body, g1, head);
            var acc' := Join(acc, x.ctx.tr);
            var y := GenCases(ls, v, scratch, rest, false, orig', acc', x.ctx, head);
            var tail := if rest.NoCase? then [] else [Emit(Branch(|y.code|, Always, 0), x.ctx.tr.loads)] + y.code;
            var k := |x.code| + if rest.NoCase? then 0 else 1;
            && GenCases(ls, v, scratch, Case(id, body, rest), first, orig, acc, g, head)
                 == Out(GenTest(ls, v, scratch, id, k, g.tr, view).code + x.code
                        + tail, y.ctx, Join(x.div, y.div), x.ok && y.ok)
            && (CoveredCases(ls, v, scratch, Case(id, body, rest), first, orig, acc, g, head) ==>
                  (TestCovered(v, scratch, id, g.tr, view) && Covered(ls, body, g1, head)
                       && CoveredCases(ls, v, scratch, rest, false, orig', acc', x.ctx, head)))
            && (view <= orig'.loads || if id == 0 then v in g.tr.loads
                else Clash(AddImm32(scratch, v, 0 - id), g.tr.loads))
            && view == orig.loads
  {
    hide Gen, Covered, Clash, TestCovered;
  }

  // ----- Main results ----------------------------------------------------------------------------

  /** Where control can go from `pc`, whatever the registers hold. */
  ghost predicate Follows(p: seq<Instr>, pc: nat, next: nat)
    requires pc < |p|
  {
    match p[pc]
    case Branch(rel, cond, _) => next == pc + 1 + rel || (cond != Always && next == pc + 1)
    case Jump(_, _) => false
    case _ => next == pc + 1
  }

  /** A path from the first instruction on, through either outcome of every branch. */
  ghost predicate Path(p: seq<Instr>, pcs: seq<nat>) {
    && |pcs| > 0 && pcs[0] == 0
    && forall k :: 0 <= k < |pcs| - 1 ==> pcs[k] < |p| && Follows(p, pcs[k], pcs[k + 1])
  }

  /** The loads in flight when the last position of a path is reached. */
  ghost function InFlight(ls: nat, p: seq<Instr>, pcs: seq<nat>, entry: set<Reg>): set<Reg>
    requires Path(p, pcs)
  {
    if |pcs| == 1 then entry
    else Flight(ls, p[pcs[|pcs| - 2]], InFlight(ls, p, pcs[..|pcs| - 1], entry))
  }

  lemma {:induction false} Bounded(ls: nat, p: seq<Instr>, f: seq<set<Reg>>, pcs: seq<nat>, entry: set<Reg>)
    requires |f| == |p| + 1 && AllSafe(ls, p, f, 0, |p|) && Path(p, pcs) && entry <= f[0]
    ensures pcs[|pcs| - 1] <= |p| && InFlight(ls, p, pcs, entry) <= f[pcs[|pcs| - 1]]
    decreases |pcs|
  {
    if |pcs| > 1 {
      var pre := pcs[..|pcs| - 1];
      Bounded(ls, p, f, pre, entry);
      var pc := pre[|pre| - 1];
      assert Follows(p, pc, pcs[|pcs| - 1]) && Safe(ls, p, f, pc);
    }
  }

  function Loads(code: seq<Item>, out: set<Reg>): (f: seq<set<Reg>>)
    ensures |f| == |code| + 1
  {
    seq(|code|, i requires 0 <= i < |code| => code[i].loads) + [out]
  }

  lemma CodeIsSafe(ls: nat, s: Stmt, g: Ctx, head: Ls)
    requires WellFormed(s, false, false) && Covered(ls, s, g, head)
    ensures var o := Gen(ls, s, g, head);
            var f := Loads(o.code, o.ctx.tr.loads);
            var p := Preservation.Finish(o.code);
            AllSafe(ls, p, f, 0, |p|) && g.tr.loads <= f[0]
  {
    hide Gen, Covered, WellFormed;
    var o := Gen(ls, s, g, head);
    var f := Loads(o.code, o.ctx.tr.loads);
    var p := Preservation.Finish(o.code);
    assert Preservation.Holding(p, 0, o.code, 0, 0);
    assert Annotated(f, 0, o.code);
    SafeStmt(p, f, 0, ls, s, false, false, g, head, 0, 0);
    Entry(p, f, 0, ls, s, g, head, 0, 0);
  }

  /** On no path through the code, whichever way its branches go, does an instruction read or write a
      register with a load in flight. At its end the builder's tracker covers what is still in flight. */
  lemma NoHazard(ls: nat, s: Stmt, g: Ctx, head: Ls, entry: set<Reg>, pcs: seq<nat>)
    requires WellFormed(s, false, false) && Covered(ls, s, g, head) && entry <= g.tr.loads
    requires Path(Preservation.Finish(Gen(ls, s, g, head).code), pcs)
    ensures var o := Gen(ls, s, g, head);
            var p := Preservation.Finish(o.code);
            var pc := pcs[|pcs| - 1];
            var flight := InFlight(ls, p, pcs, entry);
            && pc <= |p|
            && (pc < |p| ==> !Clash(p[pc], flight))
            && (pc == |p| ==> flight <= o.ctx.tr.loads)
  {
    hide Gen, Covered, WellFormed;
    var o := Gen(ls, s, g, head);
    var p := Preservation.Finish(o.code);
    var f := Loads(o.code, o.ctx.tr.loads);
    CodeIsSafe(ls, s, g, head);
    Bounded(ls, p, f, pcs, entry);
    var pc := pcs[|pcs| - 1];
    var flight := InFlight(ls, p, pcs, entry);
    if pc < |p| {
      assert Safe(ls, p, f, pc);
      if Clash(p[pc], flight) { ClashGrows(p[pc], flight, f[pc]); }
    }
  }

  /** So no path leaves a flush of the loads with one in flight. */
  lemma FlushedLoads(ls: nat, s: Stmt, g: Ctx, head: Ls, entry: set<Reg>, pcs: seq<nat>)
    requires WellFormed(s, false, false) && Covered(ls, s, g, head) && entry <= g.tr.loads
    requires var p := Preservation.Finish(Gen(ls, Seq(s, FlushLoads), g, head).code);
             Path(p, pcs) && pcs[|pcs| - 1] == |p|
    ensures InFlight(ls, Preservation.Finish(Gen(ls, Seq(s, FlushLoads), g, head).code), pcs, entry) == {}
  {
    NoHazard(ls, Seq(s, FlushLoads), g, head, entry, pcs);
  }

  lemma ClashGrows(i: Instr, a: set<Reg>, b: set<Reg>)
    requires a <= b && Clash(i, a)
    ensures Clash(i, b)
  {
    if !i.Run? {
      var k :| 0 <= k < |Operands(i)| && Operands(i)[k] * a != {};
      assert Operands(i)[k] * a <= Operands(i)[k] * b;
    }
  }
}
