/** Stores the tracker keeps or loses: when the text says which, and exactly when a path meets one it has lost. */
module LostStores {
  import opened Isa
  import opened Structured
  import opened Preservation
  import opened Tracker
  import opened Careful
  import opened Stores
  import Lost

  // ----- From the text -------------------------------------------------------------------------------

  /** No `else` body opens an `if`. */
  predicate PlainElse(s: Stmt) {
    match s
    case Seq(a, b) => PlainElse(a) && PlainElse(b)
    case If(_, _, t) => PlainElse(t)
    case IfElse(_, _, t, e) => PlainElse(t) && PlainElse(e) && NoIf(e)
    case While(_, _, body) => PlainElse(body)
    case Match(_, _, cs) => PlainElseCases(cs)
    case Maybe(_, body) => PlainElse(body)
    case _ => true
  }

  predicate PlainElseCases(cs: Cases) {
    match cs
    case NoCase => true
    case Default(body) => PlainElse(body)
    case Case(_, body, rest) => PlainElse(body) && PlainElseCases(rest)
  }

  /** Where the tracker is right about loads and no `else` opens an `if`, it keeps the stores too. */
  lemma {:induction false} CoveredKeepsStores(ls: nat, s: Stmt, g: Ctx, head: Ls)
    requires Covered(ls, s, g, head) && PlainElse(s)
    ensures StoresKept(ls, s, g, head)
    decreases s, 0
  {
    hide GenBranch, WaitIf, SplitOk, Gen;
    match s
    case Seq(a, b) =>
      CoveredKeepsStores(ls, a, g, head);
      CoveredKeepsStores(ls, b, Gen(ls, a, g, head).ctx, head);
    case If(cond, v, t) =>
      CoveredKeepsStores(ls, t, Ctx(GenBranch(ls, End, Invert(cond), v, g.tr).tr, g.ifLs, false), head);
    case IfElse(cond, v, t, e) =>
      var q := GenBranch(ls, End, Invert(cond), v, g.tr);
      var x := Gen(ls, t, Ctx(q.tr, g.ifLs, false), head);
      CoveredKeepsStores(ls, t, Ctx(q.tr, g.ifLs, false), head);
      CoveredKeepsStores(ls, e, ElseCtx(q, x), head);
      PendingKept(ls, e, ElseCtx(q, x), head);
    case While(cond, v, body) =>
      var q := if cond == Always then Piece([], g.tr) else GenBranch(ls, End, Invert(cond), v, g.tr);
      CoveredKeepsStores(ls, body, Ctx(q.tr, g.ifLs, false), q.tr);
    case Match(v, scratch, cs) =>
      CoveredKeepsStoresCases(ls, v, scratch, cs, true, g.tr, IDLE, g.(pend := false), head);
    case Maybe(_, body) => CoveredKeepsStores(ls, body, g.(pend := false), head);
    case _ =>
  }

  lemma {:induction false} CoveredKeepsStoresCases(ls: nat, v: Reg, scratch: Reg, cs: Cases, first: bool, orig: Ls,
                                                   acc: Ls, g: Ctx, head: Ls)
    requires CoveredCases(ls, v, scratch, cs, first, orig, acc, g, head) && PlainElseCases(cs)
    ensures StoresKeptCases(ls, v, scratch, cs, first, orig, acc, g, head)
    decreases cs, 0
  {
    hide Gen, GenTest, Covered, StoresKept;
    match cs
    case NoCase =>
    case Default(body) => CoveredKeepsStores(ls, body, Ctx(orig, g.ifLs, false), head);
    case Case(id, body, rest) =>
      var q := GenTest(ls, v, scratch, id, 0, g.tr, if first then g.tr.loads else orig.loads);
      var orig' := if first then q.tr else orig;
      var x := Gen(ls, body, Ctx(orig', g.ifLs, false), head);
      CoveredKeepsStores(ls, body, Ctx(orig', g.ifLs, false), head);
      CoveredKeepsStoresCases(ls, v, scratch, rest, false, orig', Join(acc, x.ctx.tr), x.ctx, head);
  }

  // ----- Paths -----------------------------------------------------------------------------------------

  /** `pcs` leads to `at`, with a store in flight there or not. */
  ghost predicate Leads(ls: nat, p: seq<Instr>, pcs: seq<nat>, entry: bool, at: nat, flight: bool) {
    Path(p, pcs) && pcs[|pcs| - 1] == at && StoreInFlight(ls, p, pcs, entry) == flight
  }

  lemma StepOn(ls: nat, p: seq<Instr>, pcs: seq<nat>, entry: bool, at: nat, flight: bool, next: nat)
    requires Leads(ls, p, pcs, entry, at, flight) && at < |p| && Follows(p, at, next)
    ensures Leads(ls, p, pcs + [next], entry, next, Storing(ls, p[at], flight))
  {
    var q := pcs + [next];
    assert q[..|q| - 1] == pcs;
    assert forall k :: 0 <= k < |q| - 1 ==> q[k] < |p| && Follows(p, q[k], q[k + 1]);
  }

  lemma StepOp(ls: nat, p: seq<Instr>, pcs: seq<nat>, entry: bool, at: nat, flight: bool)
    requires Leads(ls, p, pcs, entry, at, flight) && at < |p| && Plain(p[at])
    ensures Leads(ls, p, pcs + [at + 1], entry, at + 1, Storing(ls, p[at], flight))
  {
    StepOn(ls, p, pcs, entry, at, flight, at + 1);
  }

  lemma ThroughWait(ls: nat, p: seq<Instr>, pcs: seq<nat>, entry: bool, at: nat, need: bool, tr: Ls, end: int,
                    start: int)
    returns (q: seq<nat>)
    requires Leads(ls, p, pcs, entry, at, tr.stores) && Holding(p, at, WaitIf(ls, need, tr).code, end, start)
    ensures pcs <= q && Leads(ls, p, q, entry, at + |WaitIf(ls, need, tr).code|, WaitIf(ls, need, tr).tr.stores)
  {
    q := pcs;
    if need {
      HoldingOne(p, at, Emit(Wait({ls}), tr.loads), end, start);
      StepOp(ls, p, pcs, entry, at, tr.stores);
      q := pcs + [at + 1];
    }
  }

  lemma ThroughOp(ls: nat, p: seq<Instr>, pcs: seq<nat>, entry: bool, at: nat, i: Instr, tr: Ls, end: int, start: int)
    returns (q: seq<nat>)
    requires Plain(i) && Leads(ls, p, pcs, entry, at, tr.stores) && Holding(p, at, GenOp(ls, i, tr).code, end, start)
    ensures pcs <= q && Leads(ls, p, q, entry, at + |GenOp(ls, i, tr).code|, GenOp(ls, i, tr).tr.stores)
  {
    hide Leads, Holding, Clash;
    var w := WaitIf(ls, Clash(i, tr.loads), tr);
    HoldingConcat(p, at, w.code, [Emit(i, w.tr.loads)], end, start);
    q := ThroughWait(ls, p, pcs, entry, at, Clash(i, tr.loads), tr, end, start);
    HoldingOne(p, at + |w.code|, Emit(i, w.tr.loads), end, start);
    StepOp(ls, p, q, entry, at + |w.code|, w.tr.stores);
    q := q + [at + |w.code| + 1];
  }

  /** Through straight code, a store is in flight exactly when the tracker says so. */
  lemma {:induction false} ThroughStraight(ls: nat, p: seq<Instr>, pcs: seq<nat>, entry: bool, at: nat, s: Stmt, g: Ctx,
                                           head: Ls, end: int, start: int)
    returns (q: seq<nat>)
    requires Lost.Straight(s) && Leads(ls, p, pcs, entry, at, g.tr.stores)
    requires Holding(p, at, Gen(ls, s, g, head).code, end, start)
    ensures pcs <= q && Leads(ls, p, q, entry, at + |Gen(ls, s, g, head).code|, Gen(ls, s, g, head).ctx.tr.stores)
    decreases s
  {
    hide Leads, Holding, Clash;
    match s
    case Skip => q := pcs;
    case FlushLoads => q := ThroughWait(ls, p, pcs, entry, at, g.tr.loads != {}, g.tr, end, start);
    case FlushStores => q := ThroughWait(ls, p, pcs, entry, at, g.tr.stores, g.tr, end, start);
    case Op(i) => q := ThroughOp(ls, p, pcs, entry, at, i, g.tr, end, start);
    case Seq(a, b) =>
      var x := Gen(ls, a, g, head);
      HoldingConcat(p, at, x.code, Gen(ls, b, x.ctx, head).code, end, start);
      q := ThroughStraight(ls, p, pcs, entry, at, a, g, head, end, start);
      q := ThroughStraight(ls, p, q, entry, at + |x.code|, b, x.ctx, head, end, start);
  }

  lemma Outset(ls: nat, p: seq<Instr>, entry: bool)
    ensures Leads(ls, p, [0], entry, 0, entry)
  {
  }

  /** A path to the end on which a store is in flight there. */
  ghost predicate Leak(ls: nat, p: seq<Instr>, q: seq<nat>, entry: bool) {
    Path(p, q) && q[|q| - 1] == |p| && StoreInFlight(ls, p, q, entry)
  }

  lemma {:induction false} StraightKept(ls: nat, s: Stmt, g: Ctx, head: Ls)
    requires Lost.Straight(s)
    ensures WellFormed(s, false, false) && StoresKept(ls, s, g, head)
    decreases s
  {
    if s.Seq? {
      StraightKept(ls, s.first, g, head);
      StraightKept(ls, s.second, Gen(ls, s.first, g, head).ctx, head);
    }
  }

  /** What the tracker says behind straight code is exactly what can be: a flush there waits if and only if there is a
      store to wait for. */
  lemma StraightExact(ls: nat, s: Stmt, g: Ctx, head: Ls)
    requires Lost.Straight(s)
    ensures var o := Gen(ls, s, g, head);
            && ((exists q: seq<nat> :: Leak(ls, Finish(o.code), q, g.tr.stores)) <==> o.ctx.tr.stores)
            && (o.ctx.tr.stores <==> Gen(ls, FlushStores, o.ctx, head).code != [])
  {
    assert Gen(ls, s, g, head).ctx.tr.stores <==> Gen(ls, FlushStores, Gen(ls, s, g, head).ctx, head).code != [];
    hide Gen, StoresKept, WellFormed, Path, StoreInFlight, Lost.Straight;
    var o := Gen(ls, s, g, head);
    var p := Finish(o.code);
    assert Holding(p, 0, o.code, 0, 0);
    hide Finish, Holding;
    StraightKept(ls, s, g, head);
    Outset(ls, p, g.tr.stores);
    var q := ThroughStraight(ls, p, [0], g.tr.stores, 0, s, g, head, 0, 0);
    assert o.ctx.tr.stores ==> Leak(ls, p, q, g.tr.stores);
    forall q | Leak(ls, p, q, g.tr.stores) ensures o.ctx.tr.stores {
      StoresTracked(ls, s, g, head, g.tr.stores, q);
    }
  }

  /** Programs that keep to the text conditions for loads, and open no `if` in an `else`, flush what they have
      stored. */
  lemma CarefulStores(ls: nat, s: Stmt, head: Ls, pairs: set<Reg>, pcs: seq<nat>)
    requires WellFormed(s, false, false) && Heeds(ls, s, {}, pairs) && PlainElse(s)
    requires var p := Finish(Gen(ls, Seq(s, FlushStores), FRESH, head).code); Path(p, pcs) && pcs[|pcs| - 1] == |p|
    ensures !StoreInFlight(ls, Finish(Gen(ls, Seq(s, FlushStores), FRESH, head).code), pcs, false)
  {
    hide Gen, Finish, Path, StoreInFlight, WellFormed, Heeds, PlainElse, Covered, StoresKept;
    CarefulIsCovered(ls, s, FRESH, head, {}, pairs);
    CoveredKeepsStores(ls, s, FRESH, head);
    FlushedStores(ls, s, FRESH, head, false, pcs);
  }

  // ----- Behind a 64-bit condition -----------------------------------------------------------------------

  /** While a load stays in flight there is no WAIT, and a store stays in flight as well. */
  lemma {:induction false} NoWaitOnPath(ls: nat, p: seq<Instr>, pcs: seq<nat>, loads: set<Reg>, entry: bool)
    requires Path(p, pcs) && forall i :: 0 <= i < |p| ==> !p[i].Load? && !p[i].Store?
    requires InFlight(ls, p, pcs, loads) != {}
    ensures StoreInFlight(ls, p, pcs, entry) == entry
    decreases |pcs|
  {
    if |pcs| > 1 { NoWaitOnPath(ls, p, pcs[..|pcs| - 1], loads, entry); }
  }

  /** A flush of the stores behind a condition with nothing under it. */
  function FlushBehind(cond: Cond, v: Val): Stmt {
    Seq(If(cond, v, Skip), FlushStores)
  }

  lemma FlushBehindIs(ls: nat, cond: Cond, v: Val, g: Ctx, head: Ls)
    ensures var b := GenBranch(ls, End, Invert(cond), v, g.tr);
            Gen(ls, FlushBehind(cond, v), g, head).code
            == Resolve(b.code, |b.code|, 0) + WaitIf(ls, b.tr.stores, Join(b.tr, b.tr)).code
  {
    hide GenBranch, Resolve, WaitIf;
    var b := GenBranch(ls, End, Invert(cond), v, g.tr);
    var g1 := Ctx(b.tr, g.ifLs, false);
    assert Gen(ls, Skip, g1, head) == Out([], g1, IDLE, true);
    var x := Gen(ls, If(cond, v, Skip), g, head);
    assert x == OutIf(b, Out([], g1, IDLE, true));
    assert x.code == Resolve(b.code, |b.code|, 0) + [] && x.ctx.tr == Join(b.tr, b.tr);
  }

  lemma ForkOps(p: seq<Instr>, ls: nat, code: seq<Item>, tr: Ls, end: int, start: int)
    requires Forks(code, ls, End, tr, 0) && Holding(p, 0, code, end, start) && |p| == |code|
    ensures forall i :: 0 <= i < |p| ==> !p[i].Load? && !p[i].Store?
  {
    forall i | 0 <= i < |p| ensures !p[i].Load? && !p[i].Store? {
      assert Fork(code[i], ls, End, |code| - i - 1) && p[0 + i] == Place(code[i], 0 + i, end, start);
    }
  }

  /** Exactly when a store is in flight in front of a 64-bit condition whose halves do not agree on being loaded, there
      is a path that leaves the flush behind the condition with it. */
  lemma SplitStoreExact(ls: nat, cond: Cond, v: Val, g: Ctx, head: Ls)
    requires cond != Always
    ensures (exists q: seq<nat> :: Leak(ls, Finish(Gen(ls, FlushBehind(cond, v), g, head).code), q, g.tr.stores))
            <==> g.tr.stores && !SplitOk(Invert(cond), v, g.tr)
  {
    hide GenBranch, SplitOk, Path, StoreInFlight, Gen, Finish, StoresKept, WellFormed;
    var p := Finish(Gen(ls, FlushBehind(cond, v), g, head).code);
    if g.tr.stores && !SplitOk(Invert(cond), v, g.tr) {
      var q := LeakSplit(ls, cond, v, g, head);
      assert Leak(ls, p, q, g.tr.stores);
    } else {
      NothingUnder(ls, cond, v, g, head);
      forall q | Leak(ls, p, q, g.tr.stores) ensures false {
        FlushedStores(ls, If(cond, v, Skip), g, head, g.tr.stores, q);
      }
    }
  }

  lemma NothingUnder(ls: nat, cond: Cond, v: Val, g: Ctx, head: Ls)
    requires cond != Always && SplitKeeps(Invert(cond), v, g.tr)
    ensures WellFormed(If(cond, v, Skip), false, false) && StoresKept(ls, If(cond, v, Skip), g, head)
  {
    hide GenBranch, SplitKeeps;
    var g1 := Ctx(GenBranch(ls, End, Invert(cond), v, g.tr).tr, g.ifLs, false);
    assert StoresKept(ls, Skip, g1, head) && WellFormed(Skip, false, false);
  }

  lemma LeakSplit(ls: nat, cond: Cond, v: Val, g: Ctx, head: Ls) returns (q: seq<nat>)
    requires cond != Always && g.tr.stores && !SplitOk(Invert(cond), v, g.tr)
    ensures Leak(ls, Finish(Gen(ls, FlushBehind(cond, v), g, head).code), q, g.tr.stores)
  {
    hide GenBranch, SplitOk, Path, StoreInFlight, InFlight, Lost.Leads, Holding, Forks, Gen, Resolve, Finish;
    var b := GenBranch(ls, End, Invert(cond), v, g.tr);
    var all := Gen(ls, FlushBehind(cond, v), g, head).code;
    FlushBehindIs(ls, cond, v, g, head);
    Lost.SplitApart(ls, Invert(cond), v, g.tr);
    assert all == Resolve(b.code, |b.code|, 0) + [] == Resolve(b.code, |b.code|, 0);
    FinishSize(all);
    Lost.FinishHolds(all);
    HoldingResolved(Finish(all), 0, b.code, |b.code|, 0, 0, 0);
    q := Lost.LeadFirstOut(ls, Finish(all), Invert(cond), v, g.tr);
    Lost.LeadsTo(ls, Finish(all), q, g.tr.loads, |b.code|, g.tr.loads);
    BranchForks(ls, End, Invert(cond), v, g.tr);
    ForkOps(Finish(all), ls, b.code, g.tr, |b.code|, 0);
    NoWaitOnPath(ls, Finish(all), q, g.tr.loads, g.tr.stores);
  }

  lemma FinishSize(code: seq<Item>)
    ensures |Finish(code)| == |code|
  {
  }

  // ----- Behind an else ------------------------------------------------------------------------------------

  /** A flush of the stores behind both arms. */
  function FlushAfter(cond: Cond, v: Val, t: Stmt, e: Stmt): Stmt {
    Seq(IfElse(cond, v, t, e), FlushStores)
  }

  lemma FlushAfterIs(ls: nat, cond: Cond, v: Val, t: Stmt, e: Stmt, g: Ctx, head: Ls)
    ensures var p := GenBranch(ls, End, Invert(cond), v, g.tr);
            var x := Gen(ls, t, Ctx(p.tr, g.ifLs, false), head);
            var y := Gen(ls, e, ElseCtx(p, x), head);
            var z := OutIfElse(p, x, y);
            && Gen(ls, FlushAfter(cond, v, t, e), g, head).code
               == z.code + WaitIf(ls, y.ctx.ifLs.stores || y.ctx.tr.stores, z.ctx.tr).code
            && z.code == Resolve(p.code, |p.code| + |x.code| + 1, 0) + x.code
                         + [Emit(Branch(|y.code|, Always, 0), x.ctx.tr.loads)] + y.code
  {
    hide GenBranch, WaitIf;
  }

  lemma WaitCode(ls: nat, need: bool, tr: Ls)
    ensures WaitIf(ls, need, tr).code == if need then [Emit(Wait({ls}), tr.loads)] else []
  {
  }

  /** Where the parts are. */
  lemma FlushAfterParts(ls: nat, cond: Cond, v: Val, t: Stmt, e: Stmt, g: Ctx, head: Ls)
    ensures var p := GenBranch(ls, End, Invert(cond), v, g.tr);
            var x := Gen(ls, t, Ctx(p.tr, g.ifLs, false), head);
            var y := Gen(ls, e, ElseCtx(p, x), head);
            var known := y.ctx.ifLs.stores || y.ctx.tr.stores;
            var code := Finish(Gen(ls, FlushAfter(cond, v, t, e), g, head).code);
            var mid := |p.code| + |x.code|;
            var next := mid + 1 + |y.code|;
            && |code| == next + (if known then 1 else 0) && (known ==> code[next] == Wait({ls}))
            && code[mid] == Branch(|y.code|, Always, 0)
            && Holding(code, 0, p.code, mid + 1, 0) && Holding(code, |p.code|, x.code, 0, 0)
  {
    hide Gen, GenBranch, ElseCtx, OutIfElse, Finish, Resolve, Holding, WaitIf;
    var p := GenBranch(ls, End, Invert(cond), v, g.tr);
    var x := Gen(ls, t, Ctx(p.tr, g.ifLs, false), head);
    var y := Gen(ls, e, ElseCtx(p, x), head);
    var known := y.ctx.ifLs.stores || y.ctx.tr.stores;
    var w := WaitIf(ls, known, OutIfElse(p, x, y).ctx.tr).code;
    var all := Gen(ls, FlushAfter(cond, v, t, e), g, head).code;
    var code := Finish(all);
    var mid := |p.code| + |x.code|;
    WaitCode(ls, known, OutIfElse(p, x, y).ctx.tr);
    FlushAfterIs(ls, cond, v, t, e, g, head);
    FinishSize(all);
    Lost.FinishHolds(all);
    Lost.FiveParts(code, Resolve(p.code, mid + 1, 0), x.code, Emit(Branch(|y.code|, Always, 0), x.ctx.tr.loads), y.code,
                   w);
    HoldingResolved(code, 0, p.code, mid + 1, 0, 0, 0);
    if known { HoldingOne(code, mid + 1 + |y.code|, w[0], 0, 0); }
  }

  /** Each path to the end of the `if` arm goes on through the flush, and leaves it with a store in flight exactly when
      it had one and the builder no longer knows of any. */
  lemma ElseStoreOnPath(ls: nat, cond: Cond, v: Val, t: Stmt, e: Stmt, g: Ctx, head: Ls, entry: bool, q: seq<nat>)
    returns (r: seq<nat>)
    requires var p := GenBranch(ls, End, Invert(cond), v, g.tr);
             var x := Gen(ls, t, Ctx(p.tr, g.ifLs, false), head);
             && Path(Finish(Gen(ls, FlushAfter(cond, v, t, e), g, head).code), q)
             && q[|q| - 1] == |p.code| + |x.code|
    ensures var p := GenBranch(ls, End, Invert(cond), v, g.tr);
            var x := Gen(ls, t, Ctx(p.tr, g.ifLs, false), head);
            var y := Gen(ls, e, ElseCtx(p, x), head);
            var code := Finish(Gen(ls, FlushAfter(cond, v, t, e), g, head).code);
            && Path(code, r) && q <= r && r[|r| - 1] == |code|
            && (StoreInFlight(ls, code, r, entry)
                <==> StoreInFlight(ls, code, q, entry) && !y.ctx.ifLs.stores && !y.ctx.tr.stores)
  {
    hide Holding, GenBranch, Gen, ElseCtx;
    var p := GenBranch(ls, End, Invert(cond), v, g.tr);
    var x := Gen(ls, t, Ctx(p.tr, g.ifLs, false), head);
    var y := Gen(ls, e, ElseCtx(p, x), head);
    var code := Finish(Gen(ls, FlushAfter(cond, v, t, e), g, head).code);
    FlushAfterParts(ls, cond, v, t, e, g, head);
    hide Finish, Path, StoreInFlight;
    var mid, flight := |p.code| + |x.code|, StoreInFlight(ls, code, q, entry);
    var next := mid + 1 + |y.code|;
    Leading(ls, code, q, entry);
    assert Follows(code, mid, next) && Storing(ls, code[mid], flight) == flight;
    StepOn(ls, code, q, entry, mid, flight, next);
    r := q + [next];
    if y.ctx.ifLs.stores || y.ctx.tr.stores {
      StepOp(ls, code, r, entry, next, flight);
      r := r + [next + 1];
    }
  }

  lemma Leading(ls: nat, p: seq<Instr>, pcs: seq<nat>, entry: bool)
    requires Path(p, pcs)
    ensures Leads(ls, p, pcs, entry, pcs[|pcs| - 1], StoreInFlight(ls, p, pcs, entry))
  {
  }

  /** Falling through a 32-bit branch. */
  lemma ThroughBranch(ls: nat, p: seq<Instr>, pcs: seq<nat>, entry: bool, at: nat, cond: Cond, v: Reg, tr: Ls, end: int,
                      start: int)
    returns (q: seq<nat>)
    requires cond != Always && Leads(ls, p, pcs, entry, at, tr.stores)
    requires Holding(p, at, Branch32(ls, End, cond, v, tr).code, end, start)
    ensures pcs <= q
    ensures Leads(ls, p, q, entry, at + |Branch32(ls, End, cond, v, tr).code|, Branch32(ls, End, cond, v, tr).tr.stores)
  {
    hide Leads, Holding;
    var w := WaitIf(ls, v in tr.loads, tr);
    var x := BranchItem(End, cond, v, w.tr.loads);
    assert Branch32(ls, End, cond, v, tr) == Piece(w.code + [x], w.tr);
    HoldingConcat(p, at, w.code, [x], end, start);
    q := ThroughWait(ls, p, pcs, entry, at, v in tr.loads, tr, end, start);
    HoldingOne(p, at + |w.code|, x, end, start);
    StepOn(ls, p, q, entry, at + |w.code|, w.tr.stores, at + |w.code| + 1);
    q := q + [at + |w.code| + 1];
  }

  /** To the end of a straight arm of an `if`. */
  lemma ThroughArm(ls: nat, code: seq<Instr>, cond: Cond, v: Val, t: Stmt, g: Ctx, head: Ls) returns (q: seq<nat>)
    requires cond != Always && !v.wide && Lost.Straight(t)
    requires var p := GenBranch(ls, End, Invert(cond), v, g.tr);
             var x := Gen(ls, t, Ctx(p.tr, g.ifLs, false), head);
             Holding(code, 0, p.code, |p.code| + |x.code| + 1, 0) && Holding(code, |p.code|, x.code, 0, 0)
    ensures var p := GenBranch(ls, End, Invert(cond), v, g.tr);
            var x := Gen(ls, t, Ctx(p.tr, g.ifLs, false), head);
            Leads(ls, code, q, g.tr.stores, |p.code| + |x.code|, x.ctx.tr.stores)
  {
    hide Leads, Holding, Branch32, Gen, Lost.Straight;
    var p := GenBranch(ls, End, Invert(cond), v, g.tr);
    var x := Gen(ls, t, Ctx(p.tr, g.ifLs, false), head);
    Outset(ls, code, g.tr.stores);
    q := ThroughBranch(ls, code, [0], g.tr.stores, 0, Invert(cond), v.reg, g.tr, |p.code| + |x.code| + 1, 0);
    q := ThroughStraight(ls, code, q, g.tr.stores, |p.code|, t, Ctx(p.tr, g.ifLs, false), head, 0, 0);
  }

  /** With a straight `if` arm: there is a path that leaves the flush with a store in flight exactly when the arm ends
      with one pending, and neither `pending_if` nor the tracker knows of any behind the `else`. */
  lemma ElseStoreExact(ls: nat, cond: Cond, v: Val, t: Stmt, e: Stmt, g: Ctx, head: Ls)
    requires cond != Always && !v.wide && Lost.Straight(t) && WellFormed(e, false, false)
    requires var p := GenBranch(ls, End, Invert(cond), v, g.tr);
             StoresKept(ls, e, ElseCtx(p, Gen(ls, t, Ctx(p.tr, g.ifLs, false), head)), head)
    ensures var p := GenBranch(ls, End, Invert(cond), v, g.tr);
            var x := Gen(ls, t, Ctx(p.tr, g.ifLs, false), head);
            var y := Gen(ls, e, ElseCtx(p, x), head);
            (exists q: seq<nat> :: Leak(ls, Finish(Gen(ls, FlushAfter(cond, v, t, e), g, head).code), q, g.tr.stores))
            <==> x.ctx.tr.stores && !y.ctx.ifLs.stores && !y.ctx.tr.stores
  {
    hide GenBranch, Gen, Holding, Finish, Path, StoreInFlight, ElseCtx, Lost.Straight;
    var p := GenBranch(ls, End, Invert(cond), v, g.tr);
    var x := Gen(ls, t, Ctx(p.tr, g.ifLs, false), head);
    var y := Gen(ls, e, ElseCtx(p, x), head);
    var code := Finish(Gen(ls, FlushAfter(cond, v, t, e), g, head).code);
    if x.ctx.tr.stores && !y.ctx.ifLs.stores && !y.ctx.tr.stores {
      FlushAfterParts(ls, cond, v, t, e, g, head);
      var q := ThroughArm(ls, code, cond, v, t, g, head);
      var r := ElseStoreOnPath(ls, cond, v, t, e, g, head, g.tr.stores, q);
      assert Leak(ls, code, r, g.tr.stores);
    } else {
      forall q | Leak(ls, code, q, g.tr.stores) ensures false {
        ElseNarrow(ls, cond, v, t, e, g, head);
        FlushedStores(ls, IfElse(cond, v, t, e), g, head, g.tr.stores, q);
      }
    }
  }

  lemma ElseNarrow(ls: nat, cond: Cond, v: Val, t: Stmt, e: Stmt, g: Ctx, head: Ls)
    requires cond != Always && !v.wide && Lost.Straight(t) && WellFormed(e, false, false)
    requires var p := GenBranch(ls, End, Invert(cond), v, g.tr);
             var x := Gen(ls, t, Ctx(p.tr, g.ifLs, false), head);
             StoresKept(ls, e, ElseCtx(p, x), head) && ElseKeeps(x, Gen(ls, e, ElseCtx(p, x), head))
    ensures WellFormed(IfElse(cond, v, t, e), false, false) && StoresKept(ls, IfElse(cond, v, t, e), g, head)
  {
    hide GenBranch, Gen, ElseCtx, Lost.Straight;
    var p := GenBranch(ls, End, Invert(cond), v, g.tr);
    StraightKept(ls, t, Ctx(p.tr, g.ifLs, false), head);
  }

  /** A store in the `if` arm; an `else` that flushes the stores and then contains an `if`; a flush behind both. */
  function StoreOverwritten(c: Reg, a: Reg, r: Reg): Stmt {
    FlushAfter(Equal, Val(c, false), Op(Store(r, a, [true], 0)), Seq(FlushStores, If(Equal, Val(c, false), Skip)))
  }

  lemma StoreAlone(ls: nat, r: Reg, a: Reg)
    ensures Gen(ls, Op(Store(r, a, [true], 0)), FRESH, IDLE)
         == Out([Emit(Store(r, a, [true], 0), {})], Ctx(Ls({}, true), IDLE, false), IDLE, true)
  {
    assert [true][0] && !Clash(Store(r, a, [true], 0), {});
  }

  lemma NarrowBranch(ls: nat, c: Reg, tr: Ls)
    requires tr.loads == {}
    ensures GenBranch(ls, End, NEqual, Val(c, false), tr) == Piece([ToEnd(NEqual, c, {})], tr)
  {
  }

  /** The `else` body leaves nothing in the tracker and nothing in `pending_if`. */
  lemma FlushingElse(ls: nat, c: Reg)
    ensures var e := Seq(FlushStores, If(Equal, Val(c, false), Skip));
            var g := Ctx(Ls({}, true), Ls({}, true), false);
            && WellFormed(e, false, false) && StoresKept(ls, e, g, IDLE)
            && Gen(ls, e, g, IDLE).ctx == Ctx(IDLE, IDLE, true) && Gen(ls, e, g, IDLE).ok
  {
    var v, busy := Val(c, false), Ls({}, true);
    var e, g := Seq(FlushStores, If(Equal, v, Skip)), Ctx(busy, busy, false);
    var clear := Ctx(IDLE, busy, false);
    assert WellFormed(e.first, false, false) && WellFormed(e.second, false, false);
    assert Gen(ls, FlushStores, g, IDLE) == Out([Emit(Wait({ls}), {})], clear, IDLE, true);
    NarrowBranch(ls, c, IDLE);
    var p := Piece([ToEnd(NEqual, c, {})], IDLE);
    hide GenBranch;
    assert Gen(ls, e.second, clear, IDLE) == OutIf(p, Out([], clear, IDLE, true));
    assert StoresKept(ls, e.second, clear, IDLE);
  }

  /** The tracker loses the store of the `if` arm, and the flush behind the `else` comes out as nothing. */
  lemma ElseLosesStores(ls: nat, c: Reg, a: Reg, r: Reg) returns (q: seq<nat>)
    ensures var s := StoreOverwritten(c, a, r);
            var o := Gen(ls, s, FRESH, IDLE);
            WellFormed(s, false, false) && o.ok && !o.ctx.tr.stores && Leak(ls, Finish(o.code), q, false)
  {
    hide Clash, Path, StoreInFlight, Finish, GenBranch, StoresKept;
    var v, busy := Val(c, false), Ls({}, true);
    var t, e := Op(Store(r, a, [true], 0)), Seq(FlushStores, If(Equal, v, Skip));
    var p := Piece([ToEnd(NEqual, c, {})], IDLE);
    NarrowBranch(ls, c, IDLE);
    StoreAlone(ls, r, a);
    FlushingElse(ls, c);
    var x := Gen(ls, t, FRESH, IDLE);
    assert ElseCtx(p, x) == Ctx(busy, busy, false);
    var y := Gen(ls, e, Ctx(busy, busy, false), IDLE);
    assert Gen(ls, IfElse(Equal, v, t, e), FRESH, IDLE) == OutIfElse(p, x, y);
    assert WellFormed(IfElse(Equal, v, t, e), false, false);
    hide ElseCtx;
    ElseStoreExact(ls, Equal, v, t, e, FRESH, IDLE);
    q :| Leak(ls, Finish(Gen(ls, FlushAfter(Equal, v, t, e), FRESH, IDLE).code), q, false);
  }

  // ----- Round a loop ----------------------------------------------------------------------------------------

  /** A loop that begins with a flush of the stores. */
  function FlushingLoop(cond: Cond, v: Val, b: Stmt): Stmt {
    While(cond, v, Seq(FlushStores, b))
  }

  /** The test in front of a loop. */
  function EntryOf(ls: nat, cond: Cond, v: Val, tr: Ls): Piece {
    if cond == Always then Piece([], tr) else GenBranch(ls, End, Invert(cond), v, tr)
  }

  function BodyOf(ls: nat, cond: Cond, v: Val, b: Stmt, g: Ctx): Out {
    var p := EntryOf(ls, cond, v, g.tr);
    Gen(ls, Seq(FlushStores, b), Ctx(p.tr, g.ifLs, false), p.tr)
  }

  /** A path that reaches `at` with a store in flight. */
  ghost predicate Reaches(ls: nat, p: seq<Instr>, q: seq<nat>, entry: bool, at: nat) {
    Path(p, q) && q[|q| - 1] == at && StoreInFlight(ls, p, q, entry)
  }

  lemma LoopIs(ls: nat, cond: Cond, v: Val, b: Stmt, g: Ctx, head: Ls)
    ensures var p, x := EntryOf(ls, cond, v, g.tr), BodyOf(ls, cond, v, b, g);
            Gen(ls, FlushingLoop(cond, v, b), g, head) == OutWhile(ls, cond, v, p, x)
  {
    hide GenBranch, OutWhile;
  }

  /** Where the parts are. */
  lemma LoopParts(ls: nat, cond: Cond, v: Val, b: Stmt, g: Ctx, head: Ls)
    ensures var p, x := EntryOf(ls, cond, v, g.tr), BodyOf(ls, cond, v, b, g);
            var w := LoopWait(ls, p, x);
            var back := GenBranch(ls, Start, cond, v, w.tr);
            var code := Finish(Gen(ls, FlushingLoop(cond, v, b), g, head).code);
            var l, mid := |p.code|, |p.code| + |x.code|;
            && |code| == mid + |w.code| + |back.code|
            && Holding(code, 0, p.code, |code|, l) && Holding(code, l, x.code, |code|, l)
            && Holding(code, mid, w.code, |code|, l) && Holding(code, mid + |w.code|, back.code, |code|, l)
  {
    hide GenBranch, Gen, Holding, Finish, Resolve;
    var p, x := EntryOf(ls, cond, v, g.tr), BodyOf(ls, cond, v, b, g);
    var w := LoopWait(ls, p, x);
    var back := GenBranch(ls, Start, cond, v, w.tr);
    var inner := p.code + x.code + w.code + back.code;
    LoopIs(ls, cond, v, b, g, head);
    var all := Gen(ls, FlushingLoop(cond, v, b), g, head).code;
    assert all == Resolve(inner, |inner|, |p.code|);
    FinishSize(all);
    Lost.FinishHolds(all);
    var code := Finish(all);
    HoldingResolved(code, 0, inner, |inner|, |p.code|, 0, 0);
    HoldingConcat(code, 0, p.code + x.code + w.code, back.code, |code|, |p.code|);
    HoldingConcat(code, 0, p.code + x.code, w.code, |code|, |p.code|);
    HoldingConcat(code, 0, p.code, x.code, |code|, |p.code|);
  }

  /** Once round the loop, back to its head. */
  lemma OnceRound(ls: nat, cond: Cond, v: Val, b: Stmt, g: Ctx, head: Ls) returns (q: seq<nat>)
    requires !v.wide && Lost.Straight(b)
    ensures var p, x := EntryOf(ls, cond, v, g.tr), BodyOf(ls, cond, v, b, g);
            var back := GenBranch(ls, Start, cond, v, LoopWait(ls, p, x).tr);
            var code := Finish(Gen(ls, FlushingLoop(cond, v, b), g, head).code);
            Leads(ls, code, q, g.tr.stores, |p.code|, back.tr.stores)
  {
    hide Holding, Finish, Gen, Branch32, Lost.Straight, Leads, BodyOf, WaitIf;
    var p, x := EntryOf(ls, cond, v, g.tr), BodyOf(ls, cond, v, b, g);
    var need := x.ctx.tr.loads - p.tr.loads != {};
    var w := LoopWait(ls, p, x);
    var code := Finish(Gen(ls, FlushingLoop(cond, v, b), g, head).code);
    var l, mid := |p.code|, |p.code| + |x.code|;
    LoopParts(ls, cond, v, b, g, head);
    Outset(ls, code, g.tr.stores);
    q := [0];
    if cond != Always { q := ThroughBranch(ls, code, q, g.tr.stores, 0, Invert(cond), v.reg, g.tr, |code|, l); }
    q := ThroughBody(ls, cond, v, b, g, code, q, g.tr.stores, l, |code|);
    q := ThroughWait(ls, code, q, g.tr.stores, mid, need, x.ctx.tr, |code|, l);
    q := BranchBack(ls, code, q, g.tr.stores, mid + |w.code|, cond, v.reg, w.tr, |code|, l);
  }

  lemma ThroughBody(ls: nat, cond: Cond, v: Val, b: Stmt, g: Ctx, code: seq<Instr>, pcs: seq<nat>, entry: bool, at: nat,
                    end: int)
    returns (q: seq<nat>)
    requires Lost.Straight(b) && Leads(ls, code, pcs, entry, at, EntryOf(ls, cond, v, g.tr).tr.stores)
    requires Holding(code, at, BodyOf(ls, cond, v, b, g).code, end, at)
    ensures var x := BodyOf(ls, cond, v, b, g); Leads(ls, code, q, entry, at + |x.code|, x.ctx.tr.stores)
  {
    hide Holding, Leads, EntryOf, Gen;
    var p := EntryOf(ls, cond, v, g.tr);
    q := ThroughStraight(ls, code, pcs, entry, at, Seq(FlushStores, b), Ctx(p.tr, g.ifLs, false), p.tr, end, at);
  }

  /** The back branch is taken. */
  lemma BranchBack(ls: nat, p: seq<Instr>, pcs: seq<nat>, entry: bool, at: nat, cond: Cond, v: Reg, tr: Ls, end: int,
                   start: nat)
    returns (q: seq<nat>)
    requires Leads(ls, p, pcs, entry, at, tr.stores)
    requires Holding(p, at, Branch32(ls, Start, cond, v, tr).code, end, start)
    ensures Leads(ls, p, q, entry, start, Branch32(ls, Start, cond, v, tr).tr.stores)
  {
    hide Leads, Holding;
    var need := cond != Always && v in tr.loads;
    var w := WaitIf(ls, need, tr);
    var x := BranchItem(Start, cond, if cond == Always then 0 else v, w.tr.loads);
    assert Branch32(ls, Start, cond, v, tr) == Piece(w.code + [x], w.tr);
    HoldingConcat(p, at, w.code, [x], end, start);
    q := ThroughWait(ls, p, pcs, entry, at, need, tr, end, start);
    HoldingOne(p, at + |w.code|, x, end, start);
    StepOn(ls, p, q, entry, at + |w.code|, w.tr.stores, start);
    q := q + [start];
  }

  /** The head of a loop does not know of the stores its body hands round. A flush there comes out as nothing when none
      was pending in front of the loop, and is passed by a path with a store in flight exactly when one is pending on
      the back branch. */
  lemma LoopStoreExact(ls: nat, cond: Cond, v: Val, b: Stmt, g: Ctx, head: Ls)
    requires !v.wide && Lost.Straight(b) && Begins(b) && !EntryOf(ls, cond, v, g.tr).tr.stores
    ensures var p, x := EntryOf(ls, cond, v, g.tr), BodyOf(ls, cond, v, b, g);
            var code := Finish(Gen(ls, FlushingLoop(cond, v, b), g, head).code);
            && Gen(ls, FlushStores, Ctx(p.tr, g.ifLs, false), p.tr).code == []
            && ((exists q: seq<nat> :: Reaches(ls, code, q, g.tr.stores, |p.code|)) <==> Round(ls, cond, v, p, x))
  {
    hide Holding, Finish, Gen, GenBranch, Lost.Straight, Path, StoreInFlight, EntryOf, BodyOf, LoopWait, Fenced;
    var p, x := EntryOf(ls, cond, v, g.tr), BodyOf(ls, cond, v, b, g);
    var code := Finish(Gen(ls, FlushingLoop(cond, v, b), g, head).code);
    HeadFlush(ls, cond, v, b, g, head);
    if Round(ls, cond, v, p, x) {
      var q := OnceRound(ls, cond, v, b, g, head);
      assert Reaches(ls, code, q, g.tr.stores, |p.code|);
    } else {
      forall q | Reaches(ls, code, q, g.tr.stores, |p.code|) ensures false {
        FencesHold(ls, FlushingLoop(cond, v, b), g, head, g.tr.stores, q);
      }
    }
  }

  lemma LoopKept(ls: nat, cond: Cond, v: Val, body: Stmt, g: Ctx, head: Ls)
    requires !v.wide && WellFormed(body, true, true)
    requires var p := EntryOf(ls, cond, v, g.tr); StoresKept(ls, body, Ctx(p.tr, g.ifLs, false), p.tr)
    ensures WellFormed(While(cond, v, body), false, false) && StoresKept(ls, While(cond, v, body), g, head)
  {
    hide GenBranch, LoopWait, Gen;
  }

  lemma HeadFlush(ls: nat, cond: Cond, v: Val, b: Stmt, g: Ctx, head: Ls)
    requires !v.wide && Lost.Straight(b) && Begins(b) && !EntryOf(ls, cond, v, g.tr).tr.stores
    ensures var p, x := EntryOf(ls, cond, v, g.tr), BodyOf(ls, cond, v, b, g);
            && Gen(ls, FlushStores, Ctx(p.tr, g.ifLs, false), p.tr).code == [] && !x.div.stores
            && WellFormed(FlushingLoop(cond, v, b), false, false) && StoresKept(ls, FlushingLoop(cond, v, b), g, head)
            && (!Round(ls, cond, v, p, x) ==> |p.code| in Fenced(ls, FlushingLoop(cond, v, b), g, head, 0, false))
  {
    hide GenBranch, LoopWait, Fenced, Lost.Straight, Begins, Round;
    var p, x := EntryOf(ls, cond, v, g.tr), BodyOf(ls, cond, v, b, g);
    var g1 := Ctx(p.tr, g.ifLs, false);
    assert Gen(ls, FlushStores, g1, p.tr) == Out([], g1, IDLE, true);
    assert StoresKept(ls, FlushStores, g1, p.tr) && WellFormed(FlushStores, true, true);
    StraightBody(ls, b, g1, p.tr);
    LoopKept(ls, cond, v, Seq(FlushStores, b), g, head);
    FencedWhile(ls, cond, v, Seq(FlushStores, b), g, head, 0, false);
    FencedSeq(ls, FlushStores, b, g1, p.tr, |p.code|, Round(ls, cond, v, p, x));
  }

  lemma {:induction false} StraightBody(ls: nat, s: Stmt, g: Ctx, head: Ls)
    requires Lost.Straight(s)
    ensures WellFormed(s, true, true) && StoresKept(ls, s, g, head) && !Gen(ls, s, g, head).div.stores
    decreases s
  {
    hide GenOp, WaitIf;
    if s.Seq? {
      StraightBody(ls, s.first, g, head);
      StraightBody(ls, s.second, Gen(ls, s.first, g, head).ctx, head);
    }
  }
}
