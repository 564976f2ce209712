/** Where the tracker is wrong: exactly when a path meets a load the builder has lost. */
module Lost {
  import opened Isa
  import opened Structured
  import opened Preservation
  import opened Tracker
  import Careful

  // ----- Paths --------------------------------------------------------------------------------------

  /** `pcs` leads to `at`, with exactly `flight` in flight there. */
  ghost predicate Leads(ls: nat, p: seq<Instr>, pcs: seq<nat>, entry: set<Reg>, at: nat, flight: set<Reg>) {
    Path(p, pcs) && pcs[|pcs| - 1] == at && InFlight(ls, p, pcs, entry) == flight
  }

  lemma StepOn(ls: nat, p: seq<Instr>, pcs: seq<nat>, entry: set<Reg>, at: nat, flight: set<Reg>, next: nat)
    requires Leads(ls, p, pcs, entry, at, flight) && at < |p| && Follows(p, at, next)
    ensures Leads(ls, p, pcs + [next], entry, next, Flight(ls, p[at], flight))
  {
    var q := pcs + [next];
    assert q[..|q| - 1] == pcs;
    assert forall k :: 0 <= k < |q| - 1 ==> q[k] < |p| && Follows(p, q[k], q[k + 1]);
  }

  lemma StepOp(ls: nat, p: seq<Instr>, pcs: seq<nat>, entry: set<Reg>, at: nat, flight: set<Reg>)
    requires Leads(ls, p, pcs, entry, at, flight) && at < |p| && Plain(p[at])
    ensures Leads(ls, p, pcs + [at + 1], entry, at + 1, Flight(ls, p[at], flight))
  {
    StepOn(ls, p, pcs, entry, at, flight, at + 1);
  }

  /** Programs without a branch. */
  predicate Straight(s: Stmt) {
    match s
    case Seq(a, b) => Straight(a) && Straight(b)
    case Op(i) => Plain(i)
    case _ => s.Skip? || s.FlushLoads? || s.FlushStores?
  }

  lemma LeadWait(ls: nat, p: seq<Instr>, pcs: seq<nat>, entry: set<Reg>, at: nat, need: bool, tr: Ls, end: int,
                 start: int)
    returns (q: seq<nat>)
    requires Leads(ls, p, pcs, entry, at, tr.loads) && Holding(p, at, WaitIf(ls, need, tr).code, end, start)
    ensures pcs <= q && Leads(ls, p, q, entry, at + |WaitIf(ls, need, tr).code|, WaitIf(ls, need, tr).tr.loads)
  {
    q := pcs;
    if need {
      HoldingOne(p, at, Emit(Wait({ls}), tr.loads), end, start);
      StepOp(ls, p, pcs, entry, at, tr.loads);
      q := pcs + [at + 1];
    }
  }

  /** Through straight code, exactly what the tracker says is in flight. */
  lemma {:induction false} LeadStraight(ls: nat, p: seq<Instr>, pcs: seq<nat>, entry: set<Reg>, at: nat, s: Stmt,
                                        g: Ctx, head: Ls, end: int, start: int)
    returns (q: seq<nat>)
    requires Straight(s) && Leads(ls, p, pcs, entry, at, g.tr.loads)
    requires Holding(p, at, Gen(ls, s, g, head).code, end, start)
    ensures pcs <= q && Leads(ls, p, q, entry, at + |Gen(ls, s, g, head).code|, Gen(ls, s, g, head).ctx.tr.loads)
    decreases s
  {
    hide Leads, Holding, Clash;
    match s
    case Skip => q := pcs;
    case FlushLoads => q := LeadWait(ls, p, pcs, entry, at, g.tr.loads != {}, g.tr, end, start);
    case FlushStores => q := LeadWait(ls, p, pcs, entry, at, g.tr.stores, g.tr, end, start);
    case Op(i) => q := LeadOp(ls, p, pcs, entry, at, i, g.tr, end, start);
    case Seq(a, b) =>
      var x := Gen(ls, a, g, head);
      HoldingConcat(p, at, x.code, Gen(ls, b, x.ctx, head).code, end, start);
      q := LeadStraight(ls, p, pcs, entry, at, a, g, head, end, start);
      q := LeadStraight(ls, p, q, entry, at + |x.code|, b, x.ctx, head, end, start);
  }

  lemma LeadOp(ls: nat, p: seq<Instr>, pcs: seq<nat>, entry: set<Reg>, at: nat, i: Instr, tr: Ls, end: int, start: int)
    returns (q: seq<nat>)
    requires Plain(i) && Leads(ls, p, pcs, entry, at, tr.loads) && Holding(p, at, GenOp(ls, i, tr).code, end, start)
    ensures pcs <= q && Leads(ls, p, q, entry, at + |GenOp(ls, i, tr).code|, GenOp(ls, i, tr).tr.loads)
  {
    hide Leads, Holding, Clash;
    var w := WaitIf(ls, Clash(i, tr.loads), tr);
    HoldingConcat(p, at, w.code, [Emit(i, w.tr.loads)], end, start);
    q := LeadWait(ls, p, pcs, entry, at, Clash(i, tr.loads), tr, end, start);
    HoldingOne(p, at + |w.code|, Emit(i, w.tr.loads), end, start);
    StepOp(ls, p, q, entry, at + |w.code|, w.tr.loads);
    q := q + [at + |w.code| + 1];
  }

  /** In straight code the builder waits in front of an instruction if and only if that one needs a load that is in
      flight when control gets there. */
  lemma WaitsExactly(ls: nat, s: Stmt, i: Instr, g: Ctx, head: Ls) returns (q: seq<nat>)
    requires Straight(s) && Plain(i)
    ensures var x := Gen(ls, s, g, head);
            var code := Finish(Gen(ls, Seq(s, Op(i)), g, head).code);
            var flight := if Path(code, q) then InFlight(ls, code, q, g.tr.loads) else {};
            && Path(code, q) && q[|q| - 1] == |x.code| && flight == x.ctx.tr.loads
            && if Clash(i, flight) then |code| == |x.code| + 2 && code[|x.code|..] == [Wait({ls}), i]
               else |code| == |x.code| + 1 && code[|x.code|..] == [i]
  {
    hide Leads, Holding, Clash, Gen, Finish, WaitIf, Path, InFlight, Straight;
    var x := Gen(ls, s, g, head);
    var w := WaitIf(ls, Clash(i, x.ctx.tr.loads), x.ctx.tr);
    var all := Gen(ls, Seq(s, Op(i)), g, head).code;
    OpBehind(ls, s, i, g, head);
    FinishHolds(all);
    var code := Finish(all);
    HoldingConcat(code, 0, x.code, w.code + [Emit(i, w.tr.loads)], 0, 0);
    WaitAndOp(code, |x.code|, ls, Clash(i, x.ctx.tr.loads), x.ctx.tr, i);
    SameSize(all);
    Outset(ls, code, g.tr.loads);
    q := LeadStraight(ls, code, [0], g.tr.loads, 0, s, g, head, 0, 0);
    LeadsTo(ls, code, q, g.tr.loads, |x.code|, x.ctx.tr.loads);
  }

  lemma OpBehind(ls: nat, s: Stmt, i: Instr, g: Ctx, head: Ls)
    ensures var x := Gen(ls, s, g, head);
            var w := WaitIf(ls, Clash(i, x.ctx.tr.loads), x.ctx.tr);
            Gen(ls, Seq(s, Op(i)), g, head).code == x.code + (w.code + [Emit(i, w.tr.loads)])
  {
    hide Clash, WaitIf;
    var x := Gen(ls, s, g, head);
    assert Gen(ls, Op(i), x.ctx, head).code == GenOp(ls, i, x.ctx.tr).code;
  }

  lemma SameSize(code: seq<Item>)
    ensures |Finish(code)| == |code|
  {
  }

  /** Falling through a 32-bit branch. */
  lemma LeadBranch32(ls: nat, p: seq<Instr>, pcs: seq<nat>, entry: set<Reg>, at: nat, t: Target, cond: Cond, v: Reg,
                     tr: Ls, end: int, start: int)
    returns (q: seq<nat>)
    requires cond != Always && Leads(ls, p, pcs, entry, at, tr.loads)
    requires Holding(p, at, Branch32(ls, t, cond, v, tr).code, end, start)
    ensures pcs <= q
    ensures Leads(ls, p, q, entry, at + |Branch32(ls, t, cond, v, tr).code|, Branch32(ls, t, cond, v, tr).tr.loads)
  {
    hide Leads, Holding;
    var w := WaitIf(ls, v in tr.loads, tr);
    var x := BranchItem(t, cond, v, w.tr.loads);
    assert Branch32(ls, t, cond, v, tr) == Piece(w.code + [x], w.tr);
    HoldingConcat(p, at, w.code, [x], end, start);
    q := LeadWait(ls, p, pcs, entry, at, v in tr.loads, tr, end, start);
    HoldingOne(p, at + |w.code|, x, end, start);
    StepOn(ls, p, q, entry, at + |w.code|, w.tr.loads, at + |w.code| + 1);
    q := q + [at + |w.code| + 1];
  }

  /** Two branches, both falling through. */
  lemma LeadTwo(ls: nat, p: seq<Instr>, pcs: seq<nat>, entry: set<Reg>, at: nat, t1: Target, c1: Cond, v1: Reg, tr: Ls,
                t2: Target, c2: Cond, v2: Reg, end: int, start: int)
    returns (q: seq<nat>)
    requires c1 != Always && c2 != Always && Leads(ls, p, pcs, entry, at, tr.loads)
    requires var two := Then(Branch32(ls, t1, c1, v1, tr), Branch32(ls, t2, c2, v2, Tested(ls, c1, v1, tr)));
             Holding(p, at, two.code, end, start)
    ensures var two := Then(Branch32(ls, t1, c1, v1, tr), Branch32(ls, t2, c2, v2, Tested(ls, c1, v1, tr)));
            pcs <= q && Leads(ls, p, q, entry, at + |two.code|, two.tr.loads)
  {
    hide Leads, Holding;
    var a := Branch32(ls, t1, c1, v1, tr);
    assert a.tr == Tested(ls, c1, v1, tr);
    var b := Branch32(ls, t2, c2, v2, a.tr);
    hide Branch32;
    HoldingConcat(p, at, a.code, b.code, end, start);
    q := LeadBranch32(ls, p, pcs, entry, at, t1, c1, v1, tr, end, start);
    q := LeadBranch32(ls, p, q, entry, at + |a.code|, t2, c2, v2, a.tr, end, start);
  }

  /** A condition can always fail, and then exactly what the tracker says is in flight. */
  lemma LeadBranch64(ls: nat, p: seq<Instr>, pcs: seq<nat>, entry: set<Reg>, at: nat, t: Target, cond: Cond, v: Reg,
                     tr: Ls, end: int, start: int)
    returns (q: seq<nat>)
    requires cond != Always && !t.Ahead? && Leads(ls, p, pcs, entry, at, tr.loads)
    requires Holding(p, at, Branch64(ls, t, cond, v, tr).code, end, start)
    ensures pcs <= q
    ensures Leads(ls, p, q, entry, at + |Branch64(ls, t, cond, v, tr).code|, Branch64(ls, t, cond, v, tr).tr.loads)
  {
    hide Leads, Holding, Branch32;
    var lo, hi := v, v + 1;
    match cond
    case LEqual =>
      var t1 := Tested(ls, Less, hi, tr);
      var a, b := Branch32(ls, t, Less, hi, tr), Over(ls, NEqual, hi, t1,
                                                      Branch32(ls, t, Equal, lo, Tested(ls, NEqual, hi, t1)));
      SameTracker(ls, t, Less, hi, tr);
      HoldingConcat(p, at, a.code, b.code, end, start);
      q := LeadBranch32(ls, p, pcs, entry, at, t, Less, hi, tr, end, start);
      var over := Branch32(ls, t, Equal, lo, Tested(ls, NEqual, hi, t1));
      q := LeadTwo(ls, p, q, entry, at + |a.code|, Ahead(|over.code|), NEqual, hi, t1, t, Equal, lo, end, start);
    case Greater =>
      var t1 := Tested(ls, Less, hi, tr);
      var over := Then(Branch32(ls, t, NEqual, hi, t1), Branch32(ls, t, NEqual, lo, Tested(ls, NEqual, hi, t1)));
      var a := Branch32(ls, Ahead(|over.code|), Less, hi, tr);
      SameTracker(ls, Ahead(|over.code|), Less, hi, tr);
      HoldingConcat(p, at, a.code, over.code, end, start);
      q := LeadBranch32(ls, p, pcs, entry, at, Ahead(|over.code|), Less, hi, tr, end, start);
      q := LeadTwo(ls, p, q, entry, at + |a.code|, t, NEqual, hi, t1, t, NEqual, lo, end, start);
    case GEqual =>
      var away := Branch32(ls, t, Always, 0, Tested(ls, Less, hi, tr));
      SameTracker(ls, t, Always, 0, Tested(ls, Less, hi, tr));
      q := LeadOver(ls, p, pcs, entry, at, Less, hi, tr, away, end, start);
    case Less => q := LeadBranch32(ls, p, pcs, entry, at, t, Less, hi, tr, end, start);
    case NEqual => q := LeadTwo(ls, p, pcs, entry, at, t, NEqual, lo, tr, t, NEqual, hi, end, start);
    case Equal =>
      var over := Branch32(ls, t, Equal, hi, Tested(ls, NEqual, lo, tr));
      q := LeadTwo(ls, p, pcs, entry, at, Ahead(|over.code|), NEqual, lo, tr, t, Equal, hi, end, start);
  }

  lemma SameTracker(ls: nat, t: Target, cond: Cond, v: Reg, tr: Ls)
    ensures Branch32(ls, t, cond, v, tr).tr == Tested(ls, cond, v, tr)
    ensures cond == Always ==> Branch32(ls, t, cond, v, tr).tr == tr
  {
  }

  /** The branch over a piece that changes no tracker is taken. */
  lemma LeadOver(ls: nat, p: seq<Instr>, pcs: seq<nat>, entry: set<Reg>, at: nat, cond: Cond, v: Reg, tr: Ls,
                 over: Piece, end: int, start: int)
    returns (q: seq<nat>)
    requires cond != Always && Leads(ls, p, pcs, entry, at, tr.loads)
    requires Holding(p, at, Over(ls, cond, v, tr, over).code, end, start)
    ensures pcs <= q && Leads(ls, p, q, entry, at + |Over(ls, cond, v, tr, over).code|, Tested(ls, cond, v, tr).loads)
  {
    hide Leads, Holding;
    var w := WaitIf(ls, v in tr.loads, tr);
    var x := Emit(Branch(|over.code|, cond, v), w.tr.loads);
    assert Over(ls, cond, v, tr, over).code == w.code + [x] + over.code && Tested(ls, cond, v, tr) == w.tr;
    HoldingConcat(p, at, w.code + [x], over.code, end, start);
    HoldingConcat(p, at, w.code, [x], end, start);
    q := LeadWait(ls, p, pcs, entry, at, v in tr.loads, tr, end, start);
    HoldingOne(p, at + |w.code|, x, end, start);
    StepOn(ls, p, q, entry, at + |w.code|, w.tr.loads, at + |w.code| + 1 + |over.code|);
    q := q + [at + |w.code| + 1 + |over.code|];
  }

  lemma LeadBranch(ls: nat, p: seq<Instr>, pcs: seq<nat>, entry: set<Reg>, at: nat, cond: Cond, v: Val, tr: Ls,
                   end: int, start: int)
    returns (q: seq<nat>)
    requires cond != Always && Leads(ls, p, pcs, entry, at, tr.loads)
    requires Holding(p, at, GenBranch(ls, End, cond, v, tr).code, end, start)
    ensures pcs <= q
    ensures Leads(ls, p, q, entry, at + |GenBranch(ls, End, cond, v, tr).code|,
                  GenBranch(ls, End, cond, v, tr).tr.loads)
  {
    hide Leads, Holding, Branch32, Branch64;
    if v.wide {
      q := LeadBranch64(ls, p, pcs, entry, at, End, cond, v.reg, tr, end, start);
    } else {
      q := LeadBranch32(ls, p, pcs, entry, at, End, cond, v.reg, tr, end, start);
    }
  }

  // ----- Behind an else -------------------------------------------------------------------------------

  /** An instruction after an `else`. */
  function Behind(cond: Cond, v: Val, t: Stmt, e: Stmt, i: Instr): Stmt {
    Seq(IfElse(cond, v, t, e), Op(i))
  }

  /** What the builder has lost by then: loads of the `if` arm that neither `pending_if` nor the tracker of
      the `else` arm holds. */
  function LostLoads(x: Out, y: Out): set<Reg> {
    x.ctx.tr.loads - (y.ctx.ifLs.loads + y.ctx.tr.loads)
  }

  /** Behind any `if` with an `else`, whatever its arms are: each path to the end of the `if` arm goes on to the
      instruction, and meets a load in flight there exactly when the instruction needs one that is in flight on this
      path and that has been lost, and none that the builder still knows of. */
  lemma ElseOnPath(ls: nat, cond: Cond, v: Val, t: Stmt, e: Stmt, i: Instr, g: Ctx, head: Ls, entry: set<Reg>,
                   q: seq<nat>) returns (r: seq<nat>)
    requires Plain(i)
    requires var p := GenBranch(ls, End, Invert(cond), v, g.tr);
             var x := Gen(ls, t, Ctx(p.tr, g.ifLs, false), head);
             Path(Finish(Gen(ls, Behind(cond, v, t, e, i), g, head).code), q) && q[|q| - 1] == |p.code| + |x.code|
    ensures var p := GenBranch(ls, End, Invert(cond), v, g.tr);
            var x := Gen(ls, t, Ctx(p.tr, g.ifLs, false), head);
            var y := Gen(ls, e, ElseCtx(p, x), head);
            var code := Finish(Gen(ls, Behind(cond, v, t, e, i), g, head).code);
            var known := y.ctx.ifLs.loads + y.ctx.tr.loads;
            && Path(code, r) && q <= r && r[|r| - 1] == |code| - 1 && code[|code| - 1] == i
            && (Clash(i, InFlight(ls, code, r, entry))
                <==> Clash(i, InFlight(ls, code, q, entry) - known) && !Clash(i, known))
  {
    hide Leads, Holding, Clash, GenBranch, Gen, OutIfElse, WaitIf, ElseCtx, Operands, Flight;
    var p := GenBranch(ls, End, Invert(cond), v, g.tr);
    var x := Gen(ls, t, Ctx(p.tr, g.ifLs, false), head);
    var y := Gen(ls, e, ElseCtx(p, x), head);
    var code := Finish(Gen(ls, Behind(cond, v, t, e, i), g, head).code);
    ElseParts(ls, cond, v, t, e, i, g, head);
    hide Path, InFlight;
    var mid, known, flight := |p.code| + |x.code|, y.ctx.ifLs.loads + y.ctx.tr.loads, InFlight(ls, code, q, entry);
    var next := mid + 1 + |y.code|;
    Leading(ls, code, q, entry);
    JumpsOver(ls, code, mid, next, flight);
    StepOn(ls, code, q, entry, mid, flight, next);
    r := q + [next];
    if Clash(i, known) {
      WaitClears(ls, flight);
      StepOp(ls, code, r, entry, next, flight);
      r := r + [next + 1];
      NothingClashes(i);
    }
    LostClash(i, flight, known);
    LeadsTo(ls, code, r, entry, |code| - 1, if Clash(i, known) then {} else flight);
  }

  lemma Leading(ls: nat, p: seq<Instr>, pcs: seq<nat>, entry: set<Reg>)
    requires Path(p, pcs)
    ensures Leads(ls, p, pcs, entry, pcs[|pcs| - 1], InFlight(ls, p, pcs, entry))
  {
  }

  lemma JumpsOver(ls: nat, p: seq<Instr>, at: nat, next: nat, flight: set<Reg>)
    requires at < |p| && at + 1 <= next && p[at] == Branch(next - at - 1, Always, 0)
    ensures Follows(p, at, next) && Flight(ls, p[at], flight) == flight
  {
  }

  /** Through a straight `if` arm, all that the arm leaves in flight is. */
  lemma ElseExact(ls: nat, cond: Cond, v: Val, t: Stmt, e: Stmt, i: Instr, g: Ctx, head: Ls) returns (q: seq<nat>)
    requires cond != Always && Straight(t) && Plain(i)
    ensures var p := GenBranch(ls, End, Invert(cond), v, g.tr);
            var x := Gen(ls, t, Ctx(p.tr, g.ifLs, false), head);
            var y := Gen(ls, e, ElseCtx(p, x), head);
            var code := Finish(Gen(ls, Behind(cond, v, t, e, i), g, head).code);
            && Path(code, q) && |p.code| + |x.code| in q && q[|q| - 1] == |code| - 1 && code[|code| - 1] == i
            && (Clash(i, InFlight(ls, code, q, g.tr.loads))
                <==> Clash(i, LostLoads(x, y)) && !Clash(i, y.ctx.ifLs.loads + y.ctx.tr.loads))
  {
    hide Leads, Holding, Clash, GenBranch, Straight, Gen, OutIfElse, WaitIf, ElseCtx, Path, InFlight, Operands, Flight;
    var p := GenBranch(ls, End, Invert(cond), v, g.tr);
    var x := Gen(ls, t, Ctx(p.tr, g.ifLs, false), head);
    var code := Finish(Gen(ls, Behind(cond, v, t, e, i), g, head).code);
    ElseParts(ls, cond, v, t, e, i, g, head);
    var arm := ThroughArm(ls, code, cond, v, t, g, head);
    LeadsTo(ls, code, arm, g.tr.loads, |p.code| + |x.code|, x.ctx.tr.loads);
    q := ElseOnPath(ls, cond, v, t, e, i, g, head, g.tr.loads, arm);
    PathEnds(code, arm);
    assert q[|arm| - 1] == arm[|arm| - 1];
  }

  lemma PathEnds(p: seq<Instr>, pcs: seq<nat>)
    requires Path(p, pcs)
    ensures |pcs| > 0
  {
  }

  lemma LeadsTo(ls: nat, p: seq<Instr>, pcs: seq<nat>, entry: set<Reg>, at: nat, flight: set<Reg>)
    requires Leads(ls, p, pcs, entry, at, flight)
    ensures Path(p, pcs) && pcs[|pcs| - 1] == at && InFlight(ls, p, pcs, entry) == flight
  {
  }

  /** The path to the end of the arm of an `if`. */
  lemma ThroughArm(ls: nat, code: seq<Instr>, cond: Cond, v: Val, t: Stmt, g: Ctx, head: Ls) returns (q: seq<nat>)
    requires cond != Always && Straight(t)
    requires var p := GenBranch(ls, End, Invert(cond), v, g.tr);
             var x := Gen(ls, t, Ctx(p.tr, g.ifLs, false), head);
             var mid := |p.code| + |x.code|;
             Holding(code, 0, p.code, mid + 1, 0) && Holding(code, |p.code|, x.code, 0, 0)
    ensures var p := GenBranch(ls, End, Invert(cond), v, g.tr);
            var x := Gen(ls, t, Ctx(p.tr, g.ifLs, false), head);
            Leads(ls, code, q, g.tr.loads, |p.code| + |x.code|, x.ctx.tr.loads)
  {
    hide Leads, Holding, Clash, GenBranch, Straight, Gen;
    var p := GenBranch(ls, End, Invert(cond), v, g.tr);
    var x := Gen(ls, t, Ctx(p.tr, g.ifLs, false), head);
    var mid := |p.code| + |x.code|;
    Outset(ls, code, g.tr.loads);
    q := LeadBranch(ls, code, [0], g.tr.loads, 0, Invert(cond), v, g.tr, mid + 1, 0);
    q := LeadStraight(ls, code, q, g.tr.loads, |p.code|, t, Ctx(p.tr, g.ifLs, false), head, 0, 0);
  }

  lemma Outset(ls: nat, p: seq<Instr>, entry: set<Reg>)
    ensures Leads(ls, p, [0], entry, 0, entry)
  {
  }

  lemma WaitClears(ls: nat, flight: set<Reg>)
    ensures Flight(ls, Wait({ls}), flight) == {} && Plain(Wait({ls}))
  {
  }

  lemma NothingClashes(i: Instr)
    ensures !Clash(i, {})
  {
  }

  lemma LostClash(i: Instr, a: set<Reg>, b: set<Reg>)
    ensures !Clash(i, b) ==> (Clash(i, a) <==> Clash(i, a - b))
  {
    if !Clash(i, b) && !i.Run? {
      forall k | 0 <= k < |Operands(i)| ensures Operands(i)[k] * a == Operands(i)[k] * (a - b) {
        assert Operands(i)[k] * b == {};
        forall x | x in Operands(i)[k] ensures x !in b { Careful.NotBoth(x, Operands(i)[k], b); }
      }
    }
    if !Clash(i, b) && i.Run? { assert b == {} && a - b == a; }
  }

  /** Where the parts of such a program are. */
  lemma ElseParts(ls: nat, cond: Cond, v: Val, t: Stmt, e: Stmt, i: Instr, g: Ctx, head: Ls)
    ensures var p := GenBranch(ls, End, Invert(cond), v, g.tr);
            var x := Gen(ls, t, Ctx(p.tr, g.ifLs, false), head);
            var y := Gen(ls, e, ElseCtx(p, x), head);
            var need := Clash(i, y.ctx.ifLs.loads + y.ctx.tr.loads);
            var code := Finish(Gen(ls, Behind(cond, v, t, e, i), g, head).code);
            var mid := |p.code| + |x.code|;
            var next := mid + 1 + |y.code|;
            && |code| == next + (if need then 2 else 1) && code[|code| - 1] == i && (need ==> code[next] == Wait({ls}))
            && code[mid] == Branch(|y.code|, Always, 0)
            && Holding(code, 0, p.code, mid + 1, 0) && Holding(code, |p.code|, x.code, 0, 0)
  {
    hide Gen, GenBranch, Clash;
    var p := GenBranch(ls, End, Invert(cond), v, g.tr);
    var x := Gen(ls, t, Ctx(p.tr, g.ifLs, false), head);
    var y := Gen(ls, e, ElseCtx(p, x), head);
    var z := OutIfElse(p, x, y);
    var w := WaitIf(ls, Clash(i, z.ctx.tr.loads), z.ctx.tr);
    var code := Finish(Gen(ls, Behind(cond, v, t, e, i), g, head).code);
    BehindIs(ls, cond, v, t, e, i, g, head);
    hide OutIfElse, ElseCtx, WaitIf, Finish, Resolve, Holding;
    var mid := |p.code| + |x.code|;
    FinishHolds(Gen(ls, Behind(cond, v, t, e, i), g, head).code);
    FiveParts(code, Resolve(p.code, mid + 1, 0), x.code, Emit(Branch(|y.code|, Always, 0), x.ctx.tr.loads), y.code,
              w.code + [Emit(i, w.tr.loads)]);
    HoldingResolved(code, 0, p.code, mid + 1, 0, 0, 0);
    WaitAndOp(code, mid + 1 + |y.code|, ls, Clash(i, z.ctx.tr.loads), z.ctx.tr, i);
  }

  lemma FiveParts(code: seq<Instr>, r: seq<Item>, x: seq<Item>, away: Item, y: seq<Item>, z: seq<Item>)
    requires Holding(code, 0, (r + x + [away] + y) + z, 0, 0)
    ensures Holding(code, 0, r, 0, 0) && Holding(code, |r|, x, 0, 0) && Holding(code, |r| + |x| + 1 + |y|, z, 0, 0)
    ensures |r| + |x| < |code| && code[|r| + |x|] == Place(away, |r| + |x|, 0, 0)
  {
    hide Holding;
    HoldingConcat(code, 0, r + x + [away] + y, z, 0, 0);
    HoldingConcat(code, 0, r + x + [away], y, 0, 0);
    HoldingConcat(code, 0, r + x, [away], 0, 0);
    HoldingConcat(code, 0, r, x, 0, 0);
    HoldingOne(code, |r| + |x|, away, 0, 0);
  }

  lemma WaitAndOp(code: seq<Instr>, at: nat, ls: nat, need: bool, tr: Ls, i: Instr)
    requires var w := WaitIf(ls, need, tr); Holding(code, at, w.code + [Emit(i, w.tr.loads)], 0, 0)
    ensures at + (if need then 1 else 0) < |code| && code[at + if need then 1 else 0] == i
    ensures |WaitIf(ls, need, tr).code| == if need then 1 else 0
    ensures need ==> code[at] == Wait({ls})
  {
    var w := WaitIf(ls, need, tr);
    HoldingConcat(code, at, w.code, [Emit(i, w.tr.loads)], 0, 0);
    HoldingOne(code, at + |w.code|, Emit(i, w.tr.loads), 0, 0);
    if need { HoldingOne(code, at, Emit(Wait({ls}), tr.loads), 0, 0); }
  }

  lemma FinishHolds(code: seq<Item>)
    ensures Holding(Finish(code), 0, code, 0, 0)
  {
  }

  lemma BehindIs(ls: nat, cond: Cond, v: Val, t: Stmt, e: Stmt, i: Instr, g: Ctx, head: Ls)
    ensures var p := GenBranch(ls, End, Invert(cond), v, g.tr);
            var x := Gen(ls, t, Ctx(p.tr, g.ifLs, false), head);
            var y := Gen(ls, e, ElseCtx(p, x), head);
            var z := OutIfElse(p, x, y);
            var w := WaitIf(ls, Clash(i, z.ctx.tr.loads), z.ctx.tr);
            && Gen(ls, Behind(cond, v, t, e, i), g, head).code == z.code + (w.code + [Emit(i, w.tr.loads)])
            && z.code == Resolve(p.code, |p.code| + |x.code| + 1, 0) + x.code
                         + [Emit(Branch(|y.code|, Always, 0), x.ctx.tr.loads)] + y.code
            && z.ctx.tr.loads == y.ctx.ifLs.loads + y.ctx.tr.loads
  {
    hide GenBranch, Clash;
  }

  /** An `else` body that first reads `r` and then contains an `if`. */
  function OverwritingElse(c: Reg, r: Reg, d: Reg): Stmt {
    Seq(Op(MoveReg32(d, r)), If(Equal, Val(c, false), Skip))
  }

  /** An `if` that loads `r`, the `else` above, and a read of `r` after both. */
  function Overwritten(c: Reg, a: Reg, r: Reg, d: Reg): Stmt {
    Seq(IfElse(Equal, Val(c, false), Op(Load(r, a, [true], 0)), OverwritingElse(c, r, d)), Op(MoveReg32(d, r)))
  }

  lemma LoadThen(ls: nat, a: Reg, r: Reg)
    ensures Gen(ls, Op(Load(r, a, [true], 0)), FRESH, IDLE)
         == Out([Emit(Load(r, a, [true], 0), {})], Ctx(Ls({r}, false), IDLE, false), IDLE, true)
    ensures Flight(ls, Load(r, a, [true], 0), {}) == {r}
  {
    assert Row(r, [true]) == {r} by { assert [true][0] && r + 0 in Row(r, [true]); }
    assert !Clash(Load(r, a, [true], 0), {});
  }

  lemma ReadClashes(d: Reg, r: Reg)
    ensures Clash(MoveReg32(d, r), {r}) && !Clash(MoveReg32(d, r), {})
  {
    assert r in Operands(MoveReg32(d, r))[1] * {r};
  }

  lemma OverwritingElseCode(ls: nat, c: Reg, r: Reg, d: Reg)
    ensures Gen(ls, OverwritingElse(c, r, d), Ctx(Ls({r}, false), Ls({r}, false), false), IDLE)
         == Out([Emit(Wait({ls}), {r}), Emit(MoveReg32(d, r), {}), Emit(Branch(0, NEqual, c), {})],
                Ctx(IDLE, IDLE, true), IDLE, true)
  {
    var busy := Ls({r}, false);
    var copy := MoveReg32(d, r);
    ReadClashes(d, r);
    var y1 := Out([Emit(Wait({ls}), {r}), Emit(copy, {})], Ctx(IDLE, busy, false), IDLE, true);
    assert Gen(ls, Op(copy), Ctx(busy, busy, false), IDLE) == y1;
    assert GenBranch(ls, End, NEqual, Val(c, false), IDLE) == Piece([ToEnd(NEqual, c, {})], IDLE);
    var y2 := Out([Emit(Branch(0, NEqual, c), {})], Ctx(IDLE, IDLE, true), IDLE, true);
    assert Resolve([ToEnd(NEqual, c, {})], 1, 0) == y2.code;
    assert Gen(ls, If(Equal, Val(c, false), Skip), y1.ctx, IDLE) == y2;
  }

  lemma OverwrittenOk(ls: nat, c: Reg, a: Reg, r: Reg, d: Reg)
    ensures Gen(ls, Overwritten(c, a, r, d), FRESH, IDLE).ok
  {
    hide Clash;
    var load, els := Op(Load(r, a, [true], 0)), OverwritingElse(c, r, d);
    var q := Piece([ToEnd(NEqual, c, {})], IDLE);
    assert GenBranch(ls, End, Invert(Equal), Val(c, false), IDLE) == q;
    LoadThen(ls, a, r);
    var x := Gen(ls, load, FRESH, IDLE);
    OverwritingElseCode(ls, c, r, d);
    assert ElseCtx(q, x) == Ctx(Ls({r}, false), Ls({r}, false), false);
    assert Gen(ls, IfElse(Equal, Val(c, false), load, els), FRESH, IDLE).ok;
  }

  lemma OverwrittenWellFormed(c: Reg, a: Reg, r: Reg, d: Reg)
    ensures WellFormed(Overwritten(c, a, r, d), false, false)
  {
    var els := OverwritingElse(c, r, d);
    assert WellFormed(els.first, false, false) && WellFormed(els.second, false, false);
    assert WellFormed(els, false, false);
    assert WellFormed(Overwritten(c, a, r, d).first, false, false);
  }

  /** The tracker loses the load of the `if` arm: on the path through it, the read after the `else` is
      emitted without a WAIT and meets the load still in flight. */
  lemma ElseLosesLoads(ls: nat, c: Reg, a: Reg, r: Reg, d: Reg) returns (q: seq<nat>)
    ensures var s := Overwritten(c, a, r, d);
            var p := Finish(Gen(ls, s, FRESH, IDLE).code);
            && WellFormed(s, false, false) && Gen(ls, s, FRESH, IDLE).ok && Path(p, q) && q[|q| - 1] < |p|
            && Clash(p[q[|q| - 1]], InFlight(ls, p, q, {}))
  {
    OverwrittenOk(ls, c, a, r, d);
    OverwrittenWellFormed(c, a, r, d);
    hide Clash, InFlight, Path, WellFormed;
    var load := Op(Load(r, a, [true], 0));
    LoadThen(ls, a, r);
    OverwritingElseCode(ls, c, r, d);
    ReadClashes(d, r);
    assert GenBranch(ls, End, Invert(Equal), Val(c, false), IDLE) == Piece([ToEnd(NEqual, c, {})], IDLE);
    assert ElseCtx(Piece([ToEnd(NEqual, c, {})], IDLE), Gen(ls, load, FRESH, IDLE))
            == Ctx(Ls({r}, false), Ls({r}, false), false);
    hide Gen, GenBranch, ElseCtx;
    q := ElseExact(ls, Equal, Val(c, false), load, OverwritingElse(c, r, d), MoveReg32(d, r), FRESH, IDLE);
  }

  // ----- Behind a 64-bit condition ----------------------------------------------------------------------

  /** An instruction behind a condition with nothing under it. */
  function BehindTest(cond: Cond, v: Val, i: Instr): Stmt {
    Seq(If(cond, v, Skip), Op(i))
  }

  /** A path on which the last instruction meets a load in flight. */
  ghost predicate Hazard(ls: nat, p: seq<Instr>, q: seq<nat>, entry: set<Reg>) {
    Path(p, q) && q[|q| - 1] == |p| - 1 && Clash(p[|p| - 1], InFlight(ls, p, q, entry))
  }

  /** The half that is tested first. */
  function FirstHalf(cond: Cond, v: Reg): Reg {
    if cond == Equal || cond == NEqual then v else v + 1
  }

  /** When the halves of a condition do not agree, the first branch leaves with all that was in flight, while the
      tracker is cleared by the WAIT behind it. */
  lemma SplitApart(ls: nat, cond: Cond, v: Val, tr: Ls)
    requires cond != Always && !SplitOk(cond, v, tr)
    ensures v.wide && cond != Less && cond != GEqual && FirstHalf(cond, v.reg) !in tr.loads && tr.loads != {}
    ensures GenBranch(ls, End, cond, v, tr).tr == IDLE
  {
    hide GenBranch;
    AfterBranch(ls, End, cond, v, tr);
    var both, r := {v.reg, v.reg + 1}, if v.reg in tr.loads then v.reg else v.reg + 1;
    NotApart(r, both, tr.loads);
  }

  lemma NotApart(r: Reg, a: set<Reg>, b: set<Reg>)
    requires r in a && r in b
    ensures !(a !! b)
  {
  }

  /** Out of the condition by its first branch. */
  lemma LeadFirstOut(ls: nat, p: seq<Instr>, cond: Cond, v: Val, tr: Ls) returns (q: seq<nat>)
    requires cond != Always && !SplitOk(cond, v, tr)
    requires var b := GenBranch(ls, End, cond, v, tr); Holding(p, 0, b.code, |b.code|, 0)
    ensures Leads(ls, p, q, tr.loads, |GenBranch(ls, End, cond, v, tr).code|, tr.loads)
  {
    hide Leads, Holding, Branch32, SplitOk;
    SplitApart(ls, cond, v, tr);
    var b := GenBranch(ls, End, cond, v, tr);
    var lo, hi := v.reg, v.reg + 1;
    Outset(ls, p, tr.loads);
    match cond
    case LEqual =>
      var t1 := Tested(ls, Less, hi, tr);
      var rest := Over(ls, NEqual, hi, t1, Branch32(ls, End, Equal, lo, Tested(ls, NEqual, hi, t1)));
      q := LeadTaken(ls, p, Less, hi, tr, rest);
    case NEqual => q := LeadTaken(ls, p, NEqual, lo, tr, Branch32(ls, End, NEqual, hi, Tested(ls, NEqual, lo, tr)));
    case Greater =>
      var t1 := Tested(ls, Less, hi, tr);
      var rest := Then(Branch32(ls, End, NEqual, hi, t1), Branch32(ls, End, NEqual, lo, Tested(ls, NEqual, hi, t1)));
      NoWait(ls, Less, hi, tr);
      q := LeadOver(ls, p, [0], tr.loads, 0, Less, hi, tr, rest, |b.code|, 0);
    case Equal =>
      NoWait(ls, NEqual, lo, tr);
      q := LeadOver(ls, p, [0], tr.loads, 0, NEqual, lo, tr, Branch32(ls, End, Equal, hi, Tested(ls, NEqual, lo, tr)),
                    |b.code|, 0);
  }

  lemma NoWait(ls: nat, cond: Cond, v: Reg, tr: Ls)
    requires v !in tr.loads
    ensures Tested(ls, cond, v, tr) == tr
  {
  }

  /** The first of several branches is taken, past the others. */
  lemma LeadTaken(ls: nat, p: seq<Instr>, cond: Cond, v: Reg, tr: Ls, rest: Piece) returns (q: seq<nat>)
    requires cond != Always && v !in tr.loads
    requires var b := Then(Branch32(ls, End, cond, v, tr), rest); Holding(p, 0, b.code, |b.code|, 0)
    ensures Leads(ls, p, q, tr.loads, |Then(Branch32(ls, End, cond, v, tr), rest).code|, tr.loads)
  {
    hide Leads, Holding;
    var x := ToEnd(cond, v, tr.loads);
    assert Branch32(ls, End, cond, v, tr).code == [x];
    var n := |Then(Branch32(ls, End, cond, v, tr), rest).code|;
    assert Then(Branch32(ls, End, cond, v, tr), rest).code == [x] + rest.code;
    hide Branch32;
    Outset(ls, p, tr.loads);
    HoldingConcat(p, 0, [x], rest.code, n, 0);
    HoldingOne(p, 0, x, n, 0);
    BranchTaken(ls, p, n, cond, v, tr.loads);
    StepOn(ls, p, [0], tr.loads, 0, tr.loads, n);
    q := [0] + [n];
  }

  lemma BranchTaken(ls: nat, p: seq<Instr>, n: nat, cond: Cond, v: Reg, flight: set<Reg>)
    requires |p| > 0 && p[0] == Branch(n - 1, cond, v)
    ensures Follows(p, 0, n) && Flight(ls, p[0], flight) == flight
  {
  }

  /** Where the parts are. */
  lemma TestParts(ls: nat, cond: Cond, v: Val, i: Instr, g: Ctx, head: Ls)
    ensures var b := GenBranch(ls, End, Invert(cond), v, g.tr);
            var need := Clash(i, b.tr.loads);
            var code := Finish(Gen(ls, BehindTest(cond, v, i), g, head).code);
            && |code| == |b.code| + (if need then 2 else 1) && code[|code| - 1] == i
            && (need ==> code[|b.code|] == Wait({ls})) && Holding(code, 0, b.code, |b.code|, 0)
  {
    hide GenBranch, Clash, Holding, Resolve;
    var b := GenBranch(ls, End, Invert(cond), v, g.tr);
    var tr := Join(b.tr, b.tr);
    var w := WaitIf(ls, Clash(i, tr.loads), tr);
    var all := Gen(ls, BehindTest(cond, v, i), g, head).code;
    TestIs(ls, cond, v, i, g, head);
    hide WaitIf, Gen, Finish;
    FinishHolds(all);
    HoldingConcat(Finish(all), 0, Resolve(b.code, |b.code|, 0), w.code + [Emit(i, w.tr.loads)], 0, 0);
    HoldingResolved(Finish(all), 0, b.code, |b.code|, 0, 0, 0);
    assert tr.loads == b.tr.loads;
    WaitAndOp(Finish(all), |b.code|, ls, Clash(i, tr.loads), tr, i);
  }

  lemma TestIs(ls: nat, cond: Cond, v: Val, i: Instr, g: Ctx, head: Ls)
    ensures var b := GenBranch(ls, End, Invert(cond), v, g.tr);
            var tr := Join(b.tr, b.tr);
            var w := WaitIf(ls, Clash(i, tr.loads), tr);
            Gen(ls, BehindTest(cond, v, i), g, head).code
            == Resolve(b.code, |b.code|, 0) + (w.code + [Emit(i, w.tr.loads)])
  {
    hide GenBranch, Clash, Resolve, WaitIf;
    var b := GenBranch(ls, End, Invert(cond), v, g.tr);
    var g1 := Ctx(b.tr, g.ifLs, false);
    assert Gen(ls, Skip, g1, head) == Out([], g1, IDLE, true);
    var x := Gen(ls, If(cond, v, Skip), g, head);
    assert x == OutIf(b, Out([], g1, IDLE, true));
    assert x.code == Resolve(b.code, |b.code|, 0) + [] && x.ctx.tr == Join(b.tr, b.tr);
  }

  /** The first way out of a condition whose halves do not agree meets a load in flight at the instruction behind it
      exactly when that instruction needs any load there is. */
  lemma FirstWayOut(ls: nat, cond: Cond, v: Val, i: Instr, g: Ctx, head: Ls) returns (q: seq<nat>)
    requires cond != Always && Plain(i) && !SplitOk(Invert(cond), v, g.tr)
    ensures var code := Finish(Gen(ls, BehindTest(cond, v, i), g, head).code);
            && Path(code, q) && q[|q| - 1] == |code| - 1 && code[|code| - 1] == i
            && InFlight(ls, code, q, g.tr.loads) == g.tr.loads
  {
    hide Leads, Holding, Clash, GenBranch, Gen, SplitOk, Path, InFlight;
    var b := GenBranch(ls, End, Invert(cond), v, g.tr);
    var code := Finish(Gen(ls, BehindTest(cond, v, i), g, head).code);
    TestParts(ls, cond, v, i, g, head);
    SplitApart(ls, Invert(cond), v, g.tr);
    NothingClashes(i);
    q := LeadFirstOut(ls, code, Invert(cond), v, g.tr);
    LeadsTo(ls, code, q, g.tr.loads, |b.code|, g.tr.loads);
  }

  /** Exactly when the halves of a 64-bit condition do not agree on being in flight, and an instruction behind the
      condition needs a load that is, there is a path on which it meets that load. */
  lemma SplitExact(ls: nat, cond: Cond, v: Val, i: Instr, g: Ctx, head: Ls)
    requires cond != Always && Plain(i)
    ensures var code := Finish(Gen(ls, BehindTest(cond, v, i), g, head).code);
            && |code| > 0 && code[|code| - 1] == i
            && ((exists q: seq<nat> :: Hazard(ls, code, q, g.tr.loads))
                <==> !SplitOk(Invert(cond), v, g.tr) && Clash(i, g.tr.loads))
  {
    hide Clash, GenBranch, Gen, SplitOk, Path, InFlight, Covered, WellFormed;
    var s := BehindTest(cond, v, i);
    var code := Finish(Gen(ls, s, g, head).code);
    TestParts(ls, cond, v, i, g, head);
    if !SplitOk(Invert(cond), v, g.tr) {
      var q := FirstWayOut(ls, cond, v, i, g, head);
      assert Clash(i, g.tr.loads) ==> Hazard(ls, code, q, g.tr.loads);
    }
    forall q | Hazard(ls, code, q, g.tr.loads) ensures !SplitOk(Invert(cond), v, g.tr) && Clash(i, g.tr.loads) {
      TestCoveredBy(ls, cond, v, i, g, head);
      if SplitOk(Invert(cond), v, g.tr) { NoHazard(ls, s, g, head, g.tr.loads, q); }
      TestLoadsNothing(ls, cond, v, i, g, head);
      OnceAtTheEnd(code, q);
      NothingAdded(ls, code, q, g.tr.loads);
      ClashGrows(i, InFlight(ls, code, q, g.tr.loads), g.tr.loads);
    }
  }

  lemma TestCoveredBy(ls: nat, cond: Cond, v: Val, i: Instr, g: Ctx, head: Ls)
    requires cond != Always && Plain(i)
    ensures WellFormed(BehindTest(cond, v, i), false, false)
    ensures SplitOk(Invert(cond), v, g.tr) ==> Covered(ls, BehindTest(cond, v, i), g, head)
  {
    hide GenBranch, SplitOk, Clash, Gen;
    assert WellFormed(Skip, false, false);
    assert WellFormed(If(cond, v, Skip), false, false);
    var b := GenBranch(ls, End, Invert(cond), v, g.tr);
    assert Covered(ls, Skip, Ctx(b.tr, g.ifLs, false), head);
  }

  /** Conditions are made of branches and WAITs. */
  ghost predicate Loadless(code: seq<Item>) {
    forall k :: 0 <= k < |code| ==> !(code[k].Emit? && code[k].i.Load?)
  }

  lemma BranchLoadless(ls: nat, t: Target, cond: Cond, v: Val, tr: Ls)
    ensures Loadless(GenBranch(ls, t, cond, v, tr).code)
  {
    hide Branch32, Loadless, Tested;
    forall t', c, r, tr' ensures Loadless(Branch32(ls, t', c, r, tr').code) { Branch32Loadless(ls, t', c, r, tr'); }
    forall a, b ensures Loadless(a) && Loadless(b) ==> Loadless(a + b) { LoadlessBoth(a, b); }
  }

  lemma Branch32Loadless(ls: nat, t: Target, cond: Cond, v: Reg, tr: Ls)
    ensures Loadless(Branch32(ls, t, cond, v, tr).code)
  {
  }

  lemma LoadlessBoth(a: seq<Item>, b: seq<Item>)
    ensures Loadless(a) && Loadless(b) ==> Loadless(a + b)
  {
  }

  lemma TestLoadsNothing(ls: nat, cond: Cond, v: Val, i: Instr, g: Ctx, head: Ls)
    ensures var code := Finish(Gen(ls, BehindTest(cond, v, i), g, head).code);
            forall k :: 0 <= k < |code| - 1 ==> !code[k].Load?
  {
    hide GenBranch, Clash;
    var b := GenBranch(ls, End, Invert(cond), v, g.tr);
    TestIs(ls, cond, v, i, g, head);
    BranchLoadless(ls, End, Invert(cond), v, g.tr);
  }

  /** Behind the last instruction, if it is no branch, a path is over. */
  lemma OnceAtTheEnd(p: seq<Instr>, q: seq<nat>)
    requires Path(p, q) && |p| > 0 && Plain(p[|p| - 1]) && q[|q| - 1] == |p| - 1
    ensures forall k :: 0 <= k < |q| - 1 ==> q[k] != |p| - 1
  {
    forall k | 0 <= k < |q| - 1 ensures q[k] != |p| - 1 {
      assert Follows(p, q[k], q[k + 1]);
      if k + 1 < |q| - 1 { assert Follows(p, q[k + 1], q[k + 2]); }
    }
  }

  lemma {:induction false} NothingAdded(ls: nat, p: seq<Instr>, q: seq<nat>, entry: set<Reg>)
    requires Path(p, q) && (forall k :: 0 <= k < |p| - 1 ==> !p[k].Load?)
    requires |p| > 0 && forall k :: 0 <= k < |q| - 1 ==> q[k] != |p| - 1
    ensures InFlight(ls, p, q, entry) <= entry
    decreases |q|
  {
    if |q| > 1 {
      var front := q[..|q| - 1];
      NothingAdded(ls, p, front, entry);
      assert Follows(p, q[|q| - 2], q[|q| - 1]);
    }
  }

  /** A 64-bit `if` entered with its low half in flight, but not its high half, and a read of the low half. */
  function Halved(v: Reg, d: Reg): Stmt {
    BehindTest(Greater, Val(v, true), MoveReg32(d, v))
  }

  /** The read meets its load on the way out by the first branch, which looks only at the high half. */
  lemma HalfLost(ls: nat, v: Reg, d: Reg, g: Ctx, head: Ls) returns (q: seq<nat>)
    requires v in g.tr.loads && v + 1 !in g.tr.loads
    ensures var s := Halved(v, d);
            var code := Finish(Gen(ls, s, g, head).code);
            && WellFormed(s, false, false) && Gen(ls, s, g, head).ok && Path(code, q) && q[|q| - 1] < |code|
            && Clash(code[q[|q| - 1]], InFlight(ls, code, q, g.tr.loads))
  {
    hide Gen, Path, InFlight, WellFormed, Covered, GenBranch;
    var i := MoveReg32(d, v);
    assert v in Operands(i)[1] * g.tr.loads;
    TestCoveredBy(ls, Greater, Val(v, true), i, g, head);
    TestOk(ls, Greater, Val(v, true), i, g, head);
    q := FirstWayOut(ls, Greater, Val(v, true), i, g, head);
  }

  lemma TestOk(ls: nat, cond: Cond, v: Val, i: Instr, g: Ctx, head: Ls)
    ensures Gen(ls, BehindTest(cond, v, i), g, head).ok
  {
    hide GenBranch, Clash;
    var g1 := Ctx(GenBranch(ls, End, Invert(cond), v, g.tr).tr, g.ifLs, false);
    assert Gen(ls, Skip, g1, head) == Out([], g1, IDLE, true);
    assert Gen(ls, If(cond, v, Skip), g, head).ok;
  }

  // ----- The tests of a match ---------------------------------------------------------------------------

  /** The tests behind the first are right, whatever tracker they are emitted under, exactly when the match
      does not begin with the id 0 while the scratch register, but not the subject, is in flight. */
  lemma MatchExact(ls: nat, v: Reg, scratch: Reg, id: Word, tr: Ls)
    requires v != scratch
    ensures var after := GenTest(ls, v, scratch, id, 0, tr, tr.loads).tr;
            (forall id2: Word, t: Ls :: TestCovered(v, scratch, id2, t, after.loads))
            <==> !(id == 0 && scratch in tr.loads && v !in tr.loads)
  {
    var after := GenTest(ls, v, scratch, id, 0, tr, tr.loads).tr;
    Careful.TestAfter(ls, v, scratch, id, tr, tr.loads);
    if id == 0 && scratch in tr.loads && v !in tr.loads {
      assert after == tr;
      ScratchClashes(scratch, v, 1, tr.loads);
      NothingClashes(AddImm32(scratch, v, 0 - 1));
      assert !TestCovered(v, scratch, 1, IDLE, after.loads);
    } else {
      forall id2: Word, t: Ls ensures TestCovered(v, scratch, id2, t, after.loads) {
        Careful.TestFree(v, scratch, id2, t, after.loads);
      }
    }
  }

  /** A match of two cases or more. */
  function TwoCases(v: Reg, scratch: Reg, id: Word, body: Stmt, id2: Word, body2: Stmt, rest: Cases): Stmt {
    Match(v, scratch, Case(id, body, Case(id2, body2, rest)))
  }

  /** The path on which the first case is not selected meets a load in flight at the second test exactly when
      that test is not covered. */
  lemma SecondTestExact(ls: nat, v: Reg, scratch: Reg, id: Word, body: Stmt, id2: Word, body2: Stmt, rest: Cases,
                        g: Ctx, head: Ls) returns (q: seq<nat>)
    requires v != scratch
    ensures var t := GenTest(ls, v, scratch, id, 0, g.tr, g.tr.loads);
            var x := Gen(ls, body, Ctx(t.tr, g.ifLs, false), head);
            var code := Finish(Gen(ls, TwoCases(v, scratch, id, body, id2, body2, rest), g, head).code);
            && Path(code, q) && q[|q| - 1] == |t.code| + |x.code| + 1 < |code|
            && (Clash(code[q[|q| - 1]], InFlight(ls, code, q, g.tr.loads))
                <==> !TestCovered(v, scratch, id2, x.ctx.tr, t.tr.loads))
  {
    hide Leads, Holding, Clash, GenTest, Gen, Path, InFlight, TestCovered;
    var t := GenTest(ls, v, scratch, id, 0, g.tr, g.tr.loads);
    var x := Gen(ls, body, Ctx(t.tr, g.ifLs, false), head);
    var code := Finish(Gen(ls, TwoCases(v, scratch, id, body, id2, body2, rest), g, head).code);
    var next := |t.code| + |x.code| + 1;
    var k := TwoCasesAre(ls, v, scratch, id, body, id2, body2, rest, g, head);
    Outset(ls, code, g.tr.loads);
    q := LeadTest(ls, code, [0], v, scratch, id, |x.code| + 1, g.tr);
    LeadsTo(ls, code, q, g.tr.loads, next, t.tr.loads);
    TestOpens(ls, code, next, v, scratch, id2, k, x.ctx.tr, t.tr.loads);
  }

  /** The first instruction of a test. */
  lemma TestOpens(ls: nat, code: seq<Instr>, at: nat, v: Reg, scratch: Reg, id: Word, k: nat, tr: Ls, view: set<Reg>)
    requires Holding(code, at, GenTest(ls, v, scratch, id, k, tr, view).code, 0, 0)
    ensures at < |code| && (Clash(code[at], view) <==> !TestCovered(v, scratch, id, tr, view))
  {
    var t := GenTest(ls, v, scratch, id, k, tr, view).code;
    assert t[0].Emit? && code[at + 0] == t[0].i;
    var i := Branch(k, NEqual, v);
    assert Clash(i, view) <==> v in view by { assert Operands(i)
                                             == [{v}]; if v in view { assert v in Operands(i)[0] * view; } }
  }

  /** The test fails: control goes past the body. */
  lemma LeadTest(ls: nat, p: seq<Instr>, pcs: seq<nat>, v: Reg, scratch: Reg, id: Word, k: nat,
                 tr: Ls) returns (q: seq<nat>)
    requires Leads(ls, p, pcs, tr.loads, 0, tr.loads)
    requires Holding(p, 0, GenTest(ls, v, scratch, id, k, tr, tr.loads).code, 0, 0)
    ensures var t := GenTest(ls, v, scratch, id, 0, tr, tr.loads);
            Leads(ls, p, q, tr.loads, |t.code| + k, t.tr.loads)
  {
    hide Leads, Holding, Clash;
    var t := GenTest(ls, v, scratch, id, k, tr, tr.loads);
    var sub := AddImm32(scratch, v, 0 - id);
    var need := if id == 0 then v in tr.loads else Clash(sub, tr.loads);
    var w := WaitIf(ls, need, tr);
    var one := if id == 0 then [] else [Emit(sub, w.tr.loads)];
    var last := Emit(Branch(k, NEqual, if id == 0 then v else scratch), w.tr.loads);
    assert t.code == w.code + (one + [last]) && t.tr == w.tr;
    HoldingConcat(p, 0, w.code, one + [last], 0, 0);
    HoldingConcat(p, |w.code|, one, [last], 0, 0);
    q := LeadWait(ls, p, pcs, tr.loads, 0, need, tr, 0, 0);
    if id != 0 {
      HoldingOne(p, |w.code|, Emit(sub, w.tr.loads), 0, 0);
      StepOp(ls, p, q, tr.loads, |w.code|, w.tr.loads);
      q := q + [|w.code| + 1];
    }
    var at := |w.code| + |one|;
    HoldingOne(p, at, last, 0, 0);
    StepOn(ls, p, q, tr.loads, at, w.tr.loads, at + 1 + k);
    q := q + [at + 1 + k];
  }

  /** Where the first two tests of a match are. */
  lemma TwoCasesAre(ls: nat, v: Reg, scratch: Reg, id: Word, body: Stmt, id2: Word, body2: Stmt, rest: Cases,
                    g: Ctx, head: Ls) returns (k: nat)
    requires v != scratch
    ensures var t := GenTest(ls, v, scratch, id, 0, g.tr, g.tr.loads);
            var x := Gen(ls, body, Ctx(t.tr, g.ifLs, false), head);
            var code := Finish(Gen(ls, TwoCases(v, scratch, id, body, id2, body2, rest), g, head).code);
            && Holding(code, 0, GenTest(ls, v, scratch, id, |x.code| + 1, g.tr, g.tr.loads).code, 0, 0)
            && Holding(code, |t.code| + |x.code| + 1, GenTest(ls, v, scratch, id2, k, x.ctx.tr, t.tr.loads).code, 0, 0)
  {
    hide Holding, GenTest, Finish, Gen, GenCases;
    var t := GenTest(ls, v, scratch, id, 0, g.tr, g.tr.loads);
    var x := Gen(ls, body, Ctx(t.tr, g.ifLs, false), head);
    var s := TwoCases(v, scratch, id, body, id2, body2, rest);
    var y := GenCases(ls, v, scratch, Case(id2, body2, rest), false, t.tr, Join(IDLE, x.ctx.tr), x.ctx, head);
    FinishHolds(Gen(ls, s, g, head).code);
    FirstCase(ls, v, scratch, id, body, id2, body2, rest, g, head);
    TestSize(ls, v, scratch, id, 0, |x.code| + 1, g.tr, g.tr.loads);
    k := NextCase(ls, v, scratch, id2, body2, rest, t.tr, Join(IDLE, x.ctx.tr), x.ctx, head);
    SplitCase(Finish(Gen(ls, s, g, head).code), GenTest(ls, v, scratch, id, |x.code| + 1, g.tr, g.tr.loads).code,
              x.code,
              Emit(Branch(|y.code|, Always, 0), x.ctx.tr.loads), y.code, GenTest(ls, v, scratch, id2, k, x.ctx.tr,
                  t.tr.loads).code);
  }

  lemma FirstCase(ls: nat, v: Reg, scratch: Reg, id: Word, body: Stmt, id2: Word, body2: Stmt, rest: Cases, g: Ctx,
                  head: Ls)
    ensures var t := GenTest(ls, v, scratch, id, 0, g.tr, g.tr.loads);
            var x := Gen(ls, body, Ctx(t.tr, g.ifLs, false), head);
            var y := GenCases(ls, v, scratch, Case(id2, body2, rest), false, t.tr, Join(IDLE, x.ctx.tr), x.ctx, head);
            Gen(ls, TwoCases(v, scratch, id, body, id2, body2, rest), g, head).code
            == GenTest(ls, v, scratch, id, |x.code| + 1, g.tr, g.tr.loads).code + x.code
               + ([Emit(Branch(|y.code|, Always, 0), x.ctx.tr.loads)] + y.code)
  {
    hide Gen, GenCases, GenTest, CoveredCases, Covered, TestCovered, Clash;
    CaseUnfolds(ls, v, scratch, id, body, Case(id2, body2, rest), true, g.tr, IDLE, g.(pend := false), head);
    MatchIs(ls, v, scratch, Case(id, body, Case(id2, body2, rest)), g, head);
  }

  lemma MatchIs(ls: nat, v: Reg, scratch: Reg, cs: Cases, g: Ctx, head: Ls)
    ensures Gen(ls, Match(v, scratch, cs), g, head)
         == GenCases(ls, v, scratch, cs, true, g.tr, IDLE, g.(pend := false), head)
  {
    hide GenCases;
  }

  lemma NextCase(ls: nat, v: Reg, scratch: Reg, id: Word, body: Stmt, rest: Cases, orig: Ls, acc: Ls, g: Ctx,
                 head: Ls) returns (k: nat)
    ensures GenTest(ls, v, scratch, id, k, g.tr, orig.loads).code
         <= GenCases(ls, v, scratch, Case(id, body, rest), false, orig, acc, g, head).code
  {
    hide Gen, GenTest, GenCases, CoveredCases, Covered, TestCovered, Clash;
    CaseUnfolds(ls, v, scratch, id, body, rest, false, orig, acc, g, head);
    k := |Gen(ls, body, Ctx(orig, g.ifLs, false), head).code| + if rest.NoCase? then 0 else 1;
  }

  lemma SplitCase(code: seq<Instr>, test: seq<Item>, x: seq<Item>, away: Item, y: seq<Item>, test2: seq<Item>)
    requires Holding(code, 0, test + x + ([away] + y), 0, 0) && test2 <= y
    ensures Holding(code, 0, test, 0, 0) && Holding(code, |test| + |x| + 1, test2, 0, 0)
  {
    hide Holding;
    HoldingConcat(code, 0, test + x, [away] + y, 0, 0);
    HoldingConcat(code, 0, test, x, 0, 0);
    HoldingConcat(code, |test| + |x|, [away], y, 0, 0);
    assert y == test2 + y[|test2|..];
    HoldingConcat(code, |test| + |x| + 1, test2, y[|test2|..], 0, 0);
  }

  lemma TestSize(ls: nat, v: Reg, scratch: Reg, id: Word, j: nat, k: nat, tr: Ls, view: set<Reg>)
    ensures |GenTest(ls, v, scratch, id, j, tr, view).code| == |GenTest(ls, v, scratch, id, k, tr, view).code|
  {
  }

  /** A match on 0 that is entered with the scratch register in flight, and whose first body waits. */
  function Unscratched(v: Reg, scratch: Reg, id: Word): Stmt {
    TwoCases(v, scratch, 0, FlushLoads, id, Skip, NoCase)
  }

  /** The second test writes the scratch register while its load is in flight. */
  lemma MatchLosesScratch(ls: nat, v: Reg, scratch: Reg, id: Word, g: Ctx, head: Ls) returns (q: seq<nat>)
    requires v != scratch && id != 0 && scratch in g.tr.loads && v !in g.tr.loads && !g.pend
    ensures var s := Unscratched(v, scratch, id);
            var code := Finish(Gen(ls, s, g, head).code);
            && WellFormed(s, false, false) && Gen(ls, s, g, head).ok && Path(code, q) && q[|q| - 1] < |code|
            && Clash(code[q[|q| - 1]], InFlight(ls, code, q, g.tr.loads))
  {
    var s := Unscratched(v, scratch, id);
    UnscratchedFormed(v, scratch, id);
    UnscratchedOk(ls, v, scratch, id, g, head);
    hide Clash, WellFormed, Path, InFlight, GenCases;
    q := SecondTestExact(ls, v, scratch, 0, FlushLoads, id, Skip, NoCase, g, head);
    var sub := AddImm32(scratch, v, 0 - id);
    ScratchClashes(scratch, v, id, g.tr.loads);
    NothingClashes(sub);
  }

  lemma ScratchClashes(scratch: Reg, v: Reg, id: Word, flight: set<Reg>)
    requires scratch in flight
    ensures Clash(AddImm32(scratch, v, 0 - id), flight)
  {
    assert scratch in Operands(AddImm32(scratch, v, 0 - id))[0] * flight;
  }

  lemma UnscratchedFormed(v: Reg, scratch: Reg, id: Word)
    requires v != scratch
    ensures WellFormed(Unscratched(v, scratch, id), false, false)
  {
    var last := Case(id, Skip, NoCase);
    assert WellFormed(Skip, false, false) && WellFormedCases(NoCase, false, false);
    assert WellFormedCases(last, false, false);
    assert WellFormedCases(Case(0, FlushLoads, last), false, false);
  }

  lemma UnscratchedOk(ls: nat, v: Reg, scratch: Reg, id: Word, g: Ctx, head: Ls)
    requires scratch in g.tr.loads && v !in g.tr.loads && !g.pend
    ensures Gen(ls, Unscratched(v, scratch, id), g, head).ok
  {
    hide GenTest;
    var t := GenTest(ls, v, scratch, 0, 0, g.tr, g.tr.loads).tr;
    var x := Gen(ls, FlushLoads, Ctx(t, g.ifLs, false), head);
    var acc := Join(IDLE, x.ctx.tr);
    var x2 := Gen(ls, Skip, Ctx(t, g.ifLs, false), head);
    var z := GenCases(ls, v, scratch, NoCase, false, t, Join(acc, x2.ctx.tr), x2.ctx, head);
    assert x2.ctx == Ctx(t, g.ifLs, false) && x.ctx.ifLs == g.ifLs && z.ok;
    assert GenCases(ls, v, scratch, Case(id, Skip, NoCase), false, t, acc, x.ctx, head).ok;
  }
}
