/**
 Forward references to a label: while the label is not set, the branches to it form a linked list
 through their own offset fields. Here the list and its resolution are described on values.
 */
module Labels {
  import opened Isa
  import opened Structured

  /** Stands for CS_LABEL_INVALID_POS. */
  const NO_POS: int := -1

  const INT16_MAX: int := 32767
  const INT16_MIN: int := -32768

  /** `refs` are the positions of the branches to an unset label, oldest first. Each holds the distance to
      the one before it, the oldest -1; `last` is the label's own pointer into the list. */
  ghost predicate Chained(instrs: seq<Instr>, refs: seq<nat>, last: int) {
    && last == (if refs == [] then NO_POS else refs[|refs| - 1])
    && (forall k :: 0 <= k < |refs| ==> refs[k] < |instrs| && instrs[refs[k]].Branch?)
    && (forall j, k :: 0 <= j < k < |refs| ==> refs[j] < refs[k])
    && (forall k {:trigger LinkOf(refs, k)} :: 0 <= k < |refs| ==> instrs[refs[k]].rel == LinkOf(refs, k))
  }

  function LinkOf(refs: seq<nat>, k: nat): int
    requires k < |refs|
  {
    if k == 0 then -1 else refs[k] as int - refs[k - 1] as int
  }

  /** All branches at `refs` pointed at `target`. */
  function Patch(instrs: seq<Instr>, refs: seq<nat>, target: nat): (r: seq<Instr>)
    ensures |r| == |instrs|
  {
    seq(|instrs|, i requires 0 <= i < |instrs| =>
      if i in refs && instrs[i].Branch? then instrs[i].(rel := target - i - 1) else instrs[i])
  }

  /** A branch at `at` can encode the distance to `target`. */
  predicate Near(at: int, target: int) {
    INT16_MIN <= target - at - 1 && target - at <= INT16_MAX
  }

  ghost predicate AllNear(refs: seq<nat>, target: int) {
    forall k :: 0 <= k < |refs| ==> Near(refs[k], target)
  }

  lemma ChainedKept(a: seq<Instr>, b: seq<Instr>, refs: seq<nat>, last: int)
    requires Chained(a, refs, last)
    requires forall k :: 0 <= k < |refs| ==> refs[k] < |b| && b[refs[k]] == a[refs[k]]
    ensures Chained(b, refs, last)
  {
  }

  lemma ChainedInPrefix(a: seq<Instr>, b: seq<Instr>, refs: seq<nat>, last: int)
    requires Chained(a, refs, last) && |a| <= |b| && b[..|a|] == a
    ensures Chained(b, refs, last)
  {
    assert forall i :: 0 <= i < |a| ==> b[i] == b[..|a|][i];
    ChainedKept(a, b, refs, last);
  }

  lemma ChainedNone(instrs: seq<Instr>, end: int)
    ensures Chained(instrs, [], NO_POS) && AllNear([], end)
  {
  }

  /** Appending a branch that links back to the last reference extends the list. */
  lemma ChainedGrows(instrs: seq<Instr>, refs: seq<nat>, last: int, c: Cond, v: Reg)
    requires Chained(instrs, refs, last)
    ensures Chained(instrs + [Branch(if last == NO_POS then -1 else |instrs| - last, c, v)],
                    refs + [|instrs|], |instrs|)
  {
    var r := refs + [|instrs|];
    var b := instrs + [Branch(if last == NO_POS then -1 else |instrs| - last, c, v)];
    forall k | 0 <= k < |r| ensures r[k] < |b| && b[r[k]].Branch? && b[r[k]].rel == LinkOf(r, k) {
      if k < |refs| {
        assert r[k] == refs[k] && b[r[k]] == instrs[refs[k]];
        assert LinkOf(r, k) == LinkOf(refs, k);
      }
    }
  }

  lemma PatchNothing(instrs: seq<Instr>, target: nat)
    ensures Patch(instrs, [], target) == instrs
  {
  }

  /** Patching the references one by one, newest first; the link read before patching leads to the next. */
  lemma PatchStep(instrs: seq<Instr>, refs: seq<nat>, last: int, j: nat, target: nat)
    requires Chained(instrs, refs, last) && 0 < j <= |refs|
    ensures var p := Patch(instrs, refs[j..], target);
            var at := refs[j - 1];
            && at < |instrs| && p[at] == instrs[at] && p[at].Branch?
            && (if j == 1 then p[at].rel == -1 else p[at].rel == at - refs[j - 2] && p[at].rel > 0)
            && Patch(instrs, refs[j - 1..], target) == p[at := p[at].(rel := target - at - 1)]
  {
    var at := refs[j - 1];
    NewestFirst(refs, j);
    assert at < |instrs| && instrs[at].Branch?;
    assert instrs[at].rel == LinkOf(refs, j - 1);
    var p, q := Patch(instrs, refs[j..], target), Patch(instrs, refs[j - 1..], target);
    assert p[at] == instrs[at];
    forall i | 0 <= i < |instrs| ensures q[i] == p[at := p[at].(rel := target - at - 1)][i] {}
  }

  lemma NewestFirst(refs: seq<nat>, j: nat)
    requires 0 < j <= |refs| && forall i, k :: 0 <= i < k < |refs| ==> refs[i] < refs[k]
    ensures refs[j - 1] !in refs[j..]
    ensures forall i :: i in refs[j - 1..] <==> i == refs[j - 1] || i in refs[j..]
  {
    assert refs[j - 1..] == [refs[j - 1]] + refs[j..];
    assert forall k :: 0 <= k < |refs[j..]| ==> refs[j..][k] == refs[j + k] && refs[j + k] > refs[j - 1];
  }

  // ----- Code and references ------------------------------------------------------------------------

  /** The positions of the branches to the end, for code placed at `at`. */
  function EndRefs(code: seq<Item>, at: nat): (r: seq<nat>)
  {
    if code == [] then []
    else
      var n := |code| - 1;
      EndRefs(code[..n], at) + if code[n].ToEnd? then [at + n] else []
  }

  lemma {:induction false} EndRefsConcat(a: seq<Item>, b: seq<Item>, at: nat)
    ensures EndRefs(a + b, at) == EndRefs(a, at) + EndRefs(b, at + |a|)
    decreases |b|
  {
    if b == [] {
      assert a + b == a;
    } else {
      var n := |b| - 1;
      assert (a + b)[..|a| + n] == a + b[..n];
      EndRefsConcat(a, b[..n], at);
    }
  }

  lemma {:induction false} EndRefsAt(code: seq<Item>, at: nat, i: nat)
    ensures i in EndRefs(code, at) <==> at <= i < at + |code| && code[i - at].ToEnd?
    decreases |code|
  {
    if code != [] { EndRefsAt(code[..|code| - 1], at, i); }
  }

  lemma {:induction false} NoEndRefs(code: seq<Item>, at: nat)
    requires EndFree(code)
    ensures EndRefs(code, at) == []
    decreases |code|
  {
    if code != [] { NoEndRefs(code[..|code| - 1], at); }
  }

  /** `code` is in `instrs` at `at`; its branches to the end are there, with whatever offset. */
  ghost predicate Emitted(instrs: seq<Instr>, at: nat, code: seq<Item>, start: int) {
    && at + |code| <= |instrs|
    && forall i :: 0 <= i < |code| ==> Matches(instrs[at + i], code[i], at + i, start)
  }

  predicate Matches(i: Instr, x: Item, at: nat, start: int) {
    match x
    case ToEnd(c, v, _) => i.Branch? && i.cond == c && i.val == v
    case _ => i == Place(x, at, 0, start)
  }

  lemma EmittedConcat(instrs: seq<Instr>, at: nat, a: seq<Item>, b: seq<Item>, start: int)
    ensures Emitted(instrs, at, a + b, start) <==> Emitted(instrs, at, a, start) && Emitted(instrs, at + |a|, b, start)
  {
    var c := a + b;
    if Emitted(instrs, at, c, start) {
      forall i | 0 <= i < |a| ensures Matches(instrs[at + i], a[i], at + i, start) { assert c[i] == a[i]; }
      forall i | 0 <= i < |b| ensures Matches(instrs[at + |a| + i], b[i], at + |a| + i, start) {
        assert c[|a| + i] == b[i] && Matches(instrs[at + (|a| + i)], c[|a| + i], at + (|a| + i), start);
      }
    }
    if Emitted(instrs, at, a, start) && Emitted(instrs, at + |a|, b, start) {
      forall i | 0 <= i < |c| ensures Matches(instrs[at + i], c[i], at + i, start) {
        if i >= |a| { assert Matches(instrs[at + |a| + (i - |a|)], b[i - |a|], at + |a| + (i - |a|), start); }
      }
    }
  }

  lemma EmittedKept(a: seq<Instr>, b: seq<Instr>, at: nat, code: seq<Item>, start: int)
    requires Emitted(a, at, code, start) && at + |code| <= |b|
    requires forall i :: at <= i < at + |code| ==> b[i] == a[i]
    ensures Emitted(b, at, code, start)
  {
    forall i | 0 <= i < |code| ensures Matches(b[at + i], code[i], at + i, start) { assert b[at + i] == a[at + i]; }
  }

  /** Setting a label resolves the branches to it. */
  lemma EmittedPatched(instrs: seq<Instr>, at: nat, code: seq<Item>, refs: seq<nat>, target: nat, start: int,
                       other: int)
    requires Emitted(instrs, at, code, start)
    requires forall i :: at <= i < at + |code| ==> (i in refs <==> i in EndRefs(code, at))
    ensures Emitted(Patch(instrs, refs, target), at, Resolve(code, target - at, start - at), other)
  {
    hide EndRefs;
    var p := Patch(instrs, refs, target);
    var r := Resolve(code, target - at, start - at);
    forall i | 0 <= i < |r| ensures Matches(p[at + i], r[i], at + i, other) {
      assert Matches(instrs[at + i], code[i], at + i, start);
      EndRefsAt(code, at, at + i);
      assert at + i in refs <==> code[i].ToEnd?;
    }
  }

  lemma ResolvedHasNoEnds(code: seq<Item>, e: int, s: int, at: nat)
    ensures EndRefs(Resolve(code, e, s), at) == []
  {
    NoEndRefs(Resolve(code, e, s), at);
  }

  // ----- Reach ----------------------------------------------------------------------------------------

  /** Every branch of the code, once resolved, fits the signed 16-bit offset field. */
  ghost predicate InReach(code: seq<Item>, at: int, end: int, start: int) {
    forall i :: 0 <= i < |code| ==> Reaches(Place(code[i], at + i, end, start))
  }

  predicate Reaches(i: Instr) {
    i.Branch? ==> INT16_MIN <= i.rel < INT16_MAX
  }

  lemma InReachConcat(a: seq<Item>, b: seq<Item>, at: int, end: int, start: int)
    ensures InReach(a + b, at, end, start) <==> InReach(a, at, end, start) && InReach(b, at + |a|, end, start)
  {
    var c := a + b;
    if InReach(c, at, end, start) {
      forall i | 0 <= i < |a| ensures Reaches(Place(a[i], at + i, end, start)) { assert c[i] == a[i]; }
      forall i | 0 <= i < |b| ensures Reaches(Place(b[i], at + |a| + i, end, start)) {
        assert c[|a| + i] == b[i] && Reaches(Place(c[|a| + i], at + (|a| + i), end, start));
      }
    }
    if InReach(a, at, end, start) && InReach(b, at + |a|, end, start) {
      forall i | 0 <= i < |c| ensures Reaches(Place(c[i], at + i, end, start)) {
        if i >= |a| { assert Reaches(Place(b[i - |a|], at + |a| + (i - |a|), end, start)); }
      }
    }
  }

  lemma InReachResolved(code: seq<Item>, e: int, s: int, at: int, end: int, start: int)
    ensures InReach(Resolve(code, e, s), at, end, start) <==> InReach(code, at, at + e, at + s)
  {
    forall i | 0 <= i < |code| ensures Place(Resolve(code, e, s)[i], at + i, end, start)
            == Place(code[i], at + i, at + e, at + s) {}
  }

  /** References collected from code in reach of its end are near it. */
  lemma RefsNear(code: seq<Item>, at: nat, end: int, start: int)
    requires InReach(code, at, end, start)
    ensures AllNear(EndRefs(code, at), end)
  {
    forall k | 0 <= k < |EndRefs(code, at)| ensures Near(EndRefs(code, at)[k], end) {
      var i := EndRefs(code, at)[k];
      EndRefsAt(code, at, i);
      assert Reaches(Place(code[i - at], at + (i - at), end, start));
    }
  }

  // ----- Conditions -------------------------------------------------------------------------------------

  ghost predicate Disjoint(a: seq<nat>, b: seq<nat>) {
    forall i :: i in a ==> i !in b
  }

  /** Code that ends a longer sequence: `now` is `before` with `code` behind it. */
  ghost predicate Appended(now: seq<Instr>, before: seq<Instr>, code: seq<Item>, start: int) {
    && |now| == |before| + |code| && now[..|before|] == before
    && Emitted(now, |before|, code, start)
  }

  lemma AppendedOne(before: seq<Instr>, i: Instr, x: Item, start: int)
    requires Matches(i, x, |before|, start)
    ensures Appended(before + [i], before, [x], start)
  {
  }

  lemma AppendedTwice(a: seq<Instr>, b: seq<Instr>, c: seq<Instr>, x: seq<Item>, y: seq<Item>, start: int)
    requires Appended(b, a, x, start) && Appended(c, b, y, start)
    ensures Appended(c, a, x + y, start)
  {
    assert c[..|a|] == c[..|b|][..|a|];
    forall i | |a| <= i < |b| ensures c[i] == b[i] { assert c[..|b|][i] == b[i]; }
    EmittedKept(b, c, |a|, x, start);
    EmittedConcat(c, |a|, x, y, start);
  }

  /** A 32-bit branch to the end is the only reference in its code. */
  lemma OneEndRef(at: nat, ls: nat, cond: Cond, v: Reg, tr: Ls)
    ensures var q := Branch32(ls, End, cond, v, tr).code;
            q != [] && EndRefs(q, at) == [at + |q| - 1]
  {
    var q := Branch32(ls, End, cond, v, tr).code;
    var w := WaitIf(ls, cond != Always && v in tr.loads, tr).code;
    assert q[..|q| - 1] == w;
    NoEndRefs(w, at);
  }

  /** A branch over `n` instructions, as it is emitted (to a label still to be set) and once it is set. */
  lemma SkipResolved(instrs: seq<Instr>, at: nat, ls: nat, cond: Cond, v: Reg, tr: Ls, n: nat, start: int)
    requires Emitted(instrs, at, Branch32(ls, End, cond, v, tr).code, start)
    ensures var q := Branch32(ls, End, cond, v, tr).code;
            Emitted(Patch(instrs, EndRefs(q, at), at + |q| + n), at, Branch32(ls, Ahead(n), cond, v, tr).code, start)
  {
    hide EndRefs, Branch32, Emitted, Patch, Resolve;
    var q := Branch32(ls, End, cond, v, tr).code;
    BranchResolved(ls, cond, v, tr, n, start - at);
    EmittedPatched(instrs, at, q, EndRefs(q, at), at + |q| + n, start, start);
  }

  /** The WAIT a branch on `v` may need first, and the register the branch tests. */
  function WaitFor(ls: nat, cond: Cond, v: Reg, tr: Ls): Piece {
    WaitIf(ls, cond != Always && v in tr.loads, tr)
  }

  function TestReg(cond: Cond, v: Reg): Reg {
    if cond == Always then 0 else v
  }

  lemma Waited(before: seq<Instr>, mid: seq<Instr>, ls: nat, need: bool, tr: Ls, start: int)
    requires mid == before + if need then [Wait({ls})] else []
    ensures Appended(mid, before, WaitIf(ls, need, tr).code, start)
    ensures WaitIf(ls, need, tr).tr == if need then IDLE else tr
  {
  }

  lemma Linkable(refs: seq<nat>, last: int, instrs: seq<Instr>, pos: int, end: int)
    requires Chained(instrs, refs, last) && AllNear(refs, end) && |instrs| <= pos < end && last != NO_POS
    ensures pos - last <= INT16_MAX
  {
  }

  lemma BranchForward(before: seq<Instr>, mid: seq<Instr>, ls: nat, cond: Cond, v: Reg, tr: Ls,
                      refs: seq<nat>, last: int, start: int, end: int)
    requires Appended(mid, before, WaitFor(ls, cond, v, tr).code, start) && Chained(before, refs, last)
    requires AllNear(refs, end)
    requires InReach(Branch32(ls, End, cond, v, tr).code, |before|, end, start)
    ensures var q := Branch32(ls, End, cond, v, tr).code;
            var now := mid + [Branch(if last == NO_POS then -1 else |mid| - last, cond, TestReg(cond, v))];
            && Appended(now, before, q, start)
            && Chained(now, refs + EndRefs(q, |before|), |mid|) && AllNear(refs + EndRefs(q, |before|), end)
  {
    hide Chained, WaitIf, InReach, EndRefs;
    var w := WaitFor(ls, cond, v, tr);
    var x := ToEnd(cond, TestReg(cond, v), w.tr.loads);
    var q := Branch32(ls, End, cond, v, tr).code;
    assert q == w.code + [x];
    var i := Branch(if last == NO_POS then -1 else |mid| - last, cond, TestReg(cond, v));
    AppendedOne(mid, i, x, start);
    AppendedTwice(before, mid, mid + [i], w.code, [x], start);
    OneEndRef(|before|, ls, cond, v, tr);
    RefsNear(q, |before|, end, start);
    ChainedInPrefix(before, mid, refs, last);
    ChainedGrows(mid, refs, last, cond, TestReg(cond, v));
  }

  lemma BranchBack(before: seq<Instr>, mid: seq<Instr>, ls: nat, cond: Cond, v: Reg, tr: Ls, start: int, end: int)
    requires Appended(mid, before, WaitFor(ls, cond, v, tr).code, start)
    requires InReach(Branch32(ls, Start, cond, v, tr).code, |before|, end, start)
    ensures var q := Branch32(ls, Start, cond, v, tr).code;
            && Appended(mid + [Branch(start - |mid| - 1, cond, TestReg(cond, v))], before, q, start)
            && EndRefs(q, |before|) == [] && start - |mid| - 1 >= INT16_MIN
  {
    hide EndRefs;
    var w := WaitFor(ls, cond, v, tr);
    var x := ToStart(cond, TestReg(cond, v), w.tr.loads);
    var q := Branch32(ls, Start, cond, v, tr).code;
    assert q == w.code + [x];
    var i := Branch(start - |mid| - 1, cond, TestReg(cond, v));
    AppendedOne(mid, i, x, start);
    AppendedTwice(before, mid, mid + [i], w.code, [x], start);
    NoEndRefs(q, |before|);
    assert Reaches(Place(q[|w.code|], |before| + |w.code|, end, start));
  }

  lemma ChainedPatched(instrs: seq<Instr>, refs: seq<nat>, last: int, others: seq<nat>, target: nat)
    requires Chained(instrs, refs, last) && Disjoint(others, refs)
    ensures Chained(Patch(instrs, others, target), refs, last)
  {
    forall k | 0 <= k < |refs| ensures Patch(instrs, others, target)[refs[k]] == instrs[refs[k]] {
      assert refs[k] in refs;
    }
    ChainedKept(instrs, Patch(instrs, others, target), refs, last);
  }

  lemma BranchResolved(ls: nat, cond: Cond, v: Reg, tr: Ls, n: nat, s: int)
    ensures var q := Branch32(ls, End, cond, v, tr).code;
            Resolve(q, |q| + n, s) == Branch32(ls, Ahead(n), cond, v, tr).code
  {
  }

  lemma AppendedIs(now: seq<Instr>, before: seq<Instr>, code: seq<Item>, start: int)
    requires |now| == |before| + |code| && Emitted(now, |before|, code, start)
    requires forall i :: 0 <= i < |before| ==> now[i] == before[i]
    ensures Appended(now, before, code, start)
  {
  }

  lemma AppendedOld(now: seq<Instr>, before: seq<Instr>, code: seq<Item>, start: int)
    requires Appended(now, before, code, start)
    ensures |now| == |before| + |code| && forall i :: 0 <= i < |before| ==> now[i] == before[i]
    ensures Emitted(now, |before|, code, start)
  {
    assert forall i :: 0 <= i < |before| ==> now[i] == now[..|before|][i];
  }

  lemma AppendedSize(now: seq<Instr>, before: seq<Instr>, code: seq<Item>, start: int)
    requires Appended(now, before, code, start)
    ensures |now| == |before| + |code|
  {
  }

  /** Code behind a branch to a label that is then set behind the code. */
  lemma SkipSet(a: seq<Instr>, b: seq<Instr>, c: seq<Instr>, ls: nat, cond: Cond, v: Reg, tr: Ls, over: Piece,
                start: int)
    requires Appended(b, a, Branch32(ls, End, cond, v, tr).code, start) && Appended(c, b, over.code, start)
    ensures var q := Branch32(ls, End, cond, v, tr).code;
            Appended(Patch(c, EndRefs(q, |a|), |c|), a, Over(ls, cond, v, tr, over).code, start)
  {
    hide Branch32, EndRefs, Emitted, Appended;
    var q, r := Branch32(ls, End, cond, v, tr).code, Branch32(ls, Ahead(|over.code|), cond, v, tr).code;
    var p := Patch(c, EndRefs(q, |a|), |c|);
    AppendedOld(b, a, q, start);
    AppendedOld(c, b, over.code, start);
    BranchResolved(ls, cond, v, tr, |over.code|, 0);
    forall i: nat ensures i in EndRefs(q, |a|) ==> |a| <= i < |b| { EndRefsAt(q, |a|, i); }
    EmittedKept(b, c, |a|, q, start);
    SkipResolved(c, |a|, ls, cond, v, tr, |over.code|, start);
    EmittedKept(c, p, |b|, over.code, start);
    EmittedConcat(p, |a|, r, over.code, start);
    AppendedIs(p, a, r + over.code, start);
  }

  /** The skipping branch is in reach of its label when the code with it in place can be encoded. */
  lemma SkipInReach(ls: nat, cond: Cond, v: Reg, tr: Ls, over: Piece, at: nat, end: int, start: int)
    requires InReach(Over(ls, cond, v, tr, over).code, at, end, start)
    ensures var q := Branch32(ls, End, cond, v, tr).code;
            && InReach(q, at, at + |q| + |over.code|, start)
            && |Over(ls, cond, v, tr, over).code| == |q| + |over.code|
            && InReach(over.code, at + |q|, end, start)
  {
    hide Branch32, InReach;
    var q, r := Branch32(ls, End, cond, v, tr).code, Branch32(ls, Ahead(|over.code|), cond, v, tr).code;
    BranchResolved(ls, cond, v, tr, |over.code|, start - at);
    InReachConcat(r, over.code, at, end, start);
    InReachResolved(q, |q| + |over.code|, start - at, at, end, start);
  }

  lemma TestedAny(ls: nat, t: Target, cond: Cond, v: Reg, tr: Ls)
    ensures Branch32(ls, t, cond, v, tr).tr == Tested(ls, cond, v, tr)
    ensures Branch32(ls, t, cond, v, tr).code != []
  {
  }

  /** References from different stretches of code are different. */
  lemma DisjointStretches(refs: seq<nat>, m: seq<Item>, z: seq<Item>, at: nat)
    requires forall k :: 0 <= k < |refs| ==> refs[k] < at
    ensures Disjoint(EndRefs(m, at), refs + EndRefs(z, at + |m|))
  {
    hide EndRefs;
    forall i | i in EndRefs(m, at) ensures i !in refs + EndRefs(z, at + |m|) {
      EndRefsAt(m, at, i);
      EndRefsAt(z, at + |m|, i);
    }
  }

  lemma SkipRefs(ls: nat, cond: Cond, v: Reg, tr: Ls, over: Piece, at: nat)
    ensures var m := Branch32(ls, End, cond, v, tr).code;
            EndRefs(Over(ls, cond, v, tr, over).code, at) == EndRefs(over.code, at + |m|)
  {
    hide Branch32, EndRefs;
    var m, r := Branch32(ls, End, cond, v, tr).code, Branch32(ls, Ahead(|over.code|), cond, v, tr).code;
    BranchResolved(ls, cond, v, tr, |over.code|, 0);
    ResolvedHasNoEnds(m, |m| + |over.code|, 0, at);
    EndRefsConcat(r, over.code, at);
  }

  lemma AppendedSelf(instrs: seq<Instr>, start: int)
    ensures Appended(instrs, instrs, [], start)
    ensures EndRefs([], |instrs|) == []
  {
  }

  lemma ChainedAppended(now: seq<Instr>, before: seq<Instr>, code: seq<Item>, start: int, refs: seq<nat>, last: int)
    requires Appended(now, before, code, start) && Chained(before, refs, last)
    ensures Chained(now, refs, last)
  {
    hide Chained, Emitted;
    ChainedInPrefix(before, now, refs, last);
  }

  lemma ChainedLast(instrs: seq<Instr>, refs: seq<nat>, last: int)
    requires Chained(instrs, refs, last)
    ensures last == if refs == [] then NO_POS else refs[|refs| - 1]
  {
  }

  lemma ChainedBelow(instrs: seq<Instr>, refs: seq<nat>, last: int)
    requires Chained(instrs, refs, last)
    ensures forall k :: 0 <= k < |refs| ==> refs[k] < |instrs|
  {
  }

  /** Setting a label whose references are all in front of some code leaves that code alone. */
  lemma PatchInFront(now: seq<Instr>, before: seq<Instr>, code: seq<Item>, start: int, refs: seq<nat>, target: nat)
    requires Appended(now, before, code, start) && forall k :: 0 <= k < |refs| ==> refs[k] < |before|
    ensures Appended(Patch(now, refs, target), Patch(before, refs, target), code, start)
  {
    hide Emitted;
    AppendedOld(now, before, code, start);
    EmittedKept(now, Patch(now, refs, target), |before|, code, start);
    AppendedIs(Patch(now, refs, target), Patch(before, refs, target), code, start);
  }

  lemma OneRef(x: Item, at: nat, end: int, start: int)
    requires x.ToEnd?
    ensures EndRefs([x], at) == [at]
    ensures Near(at, end) ==> InReach([x], at, end, start)
  {
    assert [x][..0] == [];
  }

  /** A branch to the end that is always taken. */
  lemma AwayIs(ls: nat, tr: Ls, at: nat, end: int, start: int)
    ensures var x := ToEnd(Always, 0, tr.loads);
            && GenBranch(ls, End, Always, Val(0, false), tr) == Piece([x], tr)
            && EndRefs([x], at) == [at] && (Near(at, end) ==> InReach([x], at, end, start))
  {
    hide EndRefs, InReach, Branch64;
    OneRef(ToEnd(Always, 0, tr.loads), at, end, start);
  }

  /** Labels set at the same place can be set in any order. */
  lemma PatchCommutes(instrs: seq<Instr>, a: seq<nat>, b: seq<nat>, target: nat)
    ensures Patch(Patch(instrs, a, target), b, target) == Patch(Patch(instrs, b, target), a, target)
  {
  }

  lemma DisjointGrows(refs: seq<nat>, last: int, instrs: seq<Instr>, others: seq<nat>)
    requires Chained(instrs, refs, last) && Disjoint(refs, others)
    ensures Disjoint(refs, others + [|instrs|])
  {
  }

  lemma ChainedUnpatched(instrs: seq<Instr>, refs: seq<nat>, last: int, others: seq<nat>, target: nat)
    requires Chained(Patch(instrs, others, target), refs, last) && Disjoint(others, refs)
    ensures Chained(instrs, refs, last)
  {
    var p := Patch(instrs, others, target);
    forall k | 0 <= k < |refs| ensures refs[k] < |instrs| && instrs[refs[k]] == p[refs[k]] {
      assert refs[k] in refs;
    }
    ChainedKept(p, instrs, refs, last);
  }

  /** Branches back add no forward references. */
  lemma StartHasNoEnds(ls: nat, cond: Cond, val: Val, tr: Ls, at: nat)
    ensures EndRefs(GenBranch(ls, Start, cond, val, tr).code, at) == []
  {
    hide EndRefs, GenBranch;
    NoToEnds(ls, cond, val, tr);
    NoEndRefs(GenBranch(ls, Start, cond, val, tr).code, at);
  }

  ghost predicate EndFree(code: seq<Item>) {
    forall i :: 0 <= i < |code| ==> !code[i].ToEnd?
  }

  lemma EndFreeThen(a: seq<Item>, b: seq<Item>)
    requires EndFree(a) && EndFree(b)
    ensures EndFree(a + b)
  {
  }

  lemma NoToEnds(ls: nat, cond: Cond, val: Val, tr: Ls)
    ensures EndFree(GenBranch(ls, Start, cond, val, tr).code)
  {
    hide EndFree, Branch32;
    if val.wide {
      var lo, hi := val.reg, val.reg + 1;
      forall t: Target, c: Cond, v: Reg, tr: Ls | !t.End? ensures EndFree(Branch32(ls, t, c, v,
              tr).code) { OneEndFree(ls, t, c, v, tr); }
      match cond
      case LEqual =>
        var t1 := Tested(ls, Less, hi, tr);
        var rest := Branch32(ls, Start, Equal, lo, Tested(ls, NEqual, hi, t1)).code;
        EndFreeThen(Branch32(ls, Ahead(|rest|), NEqual, hi, t1).code, rest);
        EndFreeThen(Branch32(ls, Start, Less, hi, tr).code, Branch32(ls, Ahead(|rest|), NEqual, hi, t1).code + rest);
      case Greater =>
        var t1 := Tested(ls, Less, hi, tr);
        var a, z := Branch32(ls, Start, NEqual, hi, t1).code,
            Branch32(ls, Start, NEqual, lo, Tested(ls, NEqual, hi, t1)).code;
        EndFreeThen(a, z);
        EndFreeThen(Branch32(ls, Ahead(|a + z|), Less, hi, tr).code, a + z);
      case GEqual =>
        var z := Branch32(ls, Start, Always, 0, Tested(ls, Less, hi, tr)).code;
        EndFreeThen(Branch32(ls, Ahead(|z|), Less, hi, tr).code, z);
      case NEqual =>
        EndFreeThen(Branch32(ls, Start, NEqual, lo, tr).code,
                    Branch32(ls, Start, NEqual, hi, Tested(ls, NEqual, lo, tr)).code);
      case Equal =>
        var z := Branch32(ls, Start, Equal, hi, Tested(ls, NEqual, lo, tr)).code;
        EndFreeThen(Branch32(ls, Ahead(|z|), NEqual, lo, tr).code, z);
      case _ =>
    } else {
      OneEndFree(ls, Start, cond, val.reg, tr);
    }
  }

  lemma OneEndFree(ls: nat, t: Target, cond: Cond, v: Reg, tr: Ls)
    requires !t.End?
    ensures EndFree(Branch32(ls, t, cond, v, tr).code)
  {
  }

  lemma WaitHasNoEnds(ls: nat, need: bool, tr: Ls, at: nat)
    ensures EndRefs(WaitIf(ls, need, tr).code, at) == []
  {
    NoEndRefs(WaitIf(ls, need, tr).code, at);
  }

  lemma OpHasNoEnds(ls: nat, i: Instr, tr: Ls, at: nat)
    ensures EndRefs(GenOp(ls, i, tr).code, at) == []
  {
    NoEndRefs(GenOp(ls, i, tr).code, at);
  }

  lemma AppendedPrefix(now: seq<Instr>, before: seq<Instr>, code: seq<Item>, start: int)
    requires Appended(now, before, code, start)
    ensures |before| <= |now| && now[..|before|] == before
  {
  }
}
