/** The maybe blocks a program leaves behind: where they are and what belongs there. */
module Handles {
  import opened Isa
  import opened Structured

  datatype Handle = Handle(at: nat, instrs: seq<Instr>)

  /** Code in its place, without branches to the end of what it is part of. */
  function Placed(code: seq<Item>, at: int, start: int): (r: seq<Instr>)
    ensures |r| == |code|
  {
    seq(|code|, i requires 0 <= i < |code| => Place(code[i], at + i, 0, start))
  }

  /** The maybe blocks of a program whose code begins at `at`, the latest to be closed first: an enclosing
      block before those inside it. The instructions kept for a block have those inside it as they were left
      when it was closed. */
  function Kept(ls: nat, s: Stmt, g: Ctx, head: Ls, at: nat, start: int): seq<Handle>
    decreases s
  {
    match s
    case Seq(a, b) =>
      var x := Gen(ls, a, g, head);
      Kept(ls, b, x.ctx, head, at + |x.code|, start) + Kept(ls, a, g, head, at, start)
    case If(cond, v, t) =>
      var p := GenBranch(ls, End, Invert(cond), v, g.tr);
      Kept(ls, t, Ctx(p.tr, g.ifLs, false), head, at + |p.code|, start)
    case IfElse(cond, v, t, e) =>
      var p := GenBranch(ls, End, Invert(cond), v, g.tr);
      var g1 := Ctx(p.tr, g.ifLs, false);
      var x := Gen(ls, t, g1, head);
      Kept(ls, e, ElseCtx(p, x), head, at + |p.code| + |x.code| + 1, start)
              + Kept(ls, t, g1, head, at + |p.code|, start)
    case While(cond, v, body) =>
      var p := if cond == Always then Piece([], g.tr) else GenBranch(ls, End, Invert(cond), v, g.tr);
      Kept(ls, body, Ctx(p.tr, g.ifLs, false), p.tr, at + |p.code|, at + |p.code|)
    case Match(v, scratch, cs) => KeptCases(ls, v, scratch, cs, true, g.tr, IDLE, g.(pend := false), head, at, start)
    case Maybe(_, body) =>
      var g1 := g.(pend := false);
      var x := Gen(ls, body, g1, head);
      [Handle(at, Placed(x.code + MaybeWait(ls, g.tr, x).code, at, start))] + Kept(ls, body, g1, head, at, start)
    case _ => []
  }

  function KeptCases(ls: nat, v: Reg, scratch: Reg, cs: Cases, first: bool, orig: Ls, acc: Ls, g: Ctx, head: Ls,
                     at: nat, start: int): seq<Handle>
    decreases cs
  {
    match cs
    case NoCase => []
    case Default(body) => Kept(ls, body, Ctx(orig, g.ifLs, false), head, at, start)
    case Case(id, body, rest) =>
      var p := GenTest(ls, v, scratch, id, 0, g.tr, if first then g.tr.loads else orig.loads);
      var orig' := if first then p.tr else orig;
      var g1 := Ctx(orig', g.ifLs, false);
      var x := Gen(ls, body, g1, head);
      KeptCases(ls, v, scratch, rest, false, orig', Join(acc, x.ctx.tr), x.ctx, head,
                at + |p.code| + |x.code| + 1, start)
      + Kept(ls, body, g1, head, at + |p.code|, start)
  }

  lemma KeptIf(ls: nat, s: Stmt, g: Ctx, head: Ls, at: nat, start: int)
    requires s.If?
    ensures var p := GenBranch(ls, End, Invert(s.cond), s.val, g.tr);
            Kept(ls, s, g, head, at, start) == Kept(ls, s.thn, Ctx(p.tr, g.ifLs, false), head, at + |p.code|, start)
  {
    hide GenBranch, Gen;
  }

  lemma KeptElse(ls: nat, s: Stmt, g: Ctx, head: Ls, at: nat, start: int)
    requires s.IfElse?
    ensures var p := GenBranch(ls, End, Invert(s.cond), s.val, g.tr);
            var g1 := Ctx(p.tr, g.ifLs, false);
            var x := Gen(ls, s.thn, g1, head);
            Kept(ls, s, g, head, at, start) == Kept(ls, s.els, ElseCtx(p, x), head, at + |p.code| + |x.code| + 1, start)
                                               + Kept(ls, s.thn, g1, head, at + |p.code|, start)
  {
    hide GenBranch, Gen, ElseCtx;
  }

  lemma KeptWhile(ls: nat, s: Stmt, g: Ctx, head: Ls, at: nat, start: int)
    requires s.While?
    ensures var p := if s.cond == Always then Piece([], g.tr) else GenBranch(ls, End, Invert(s.cond), s.val, g.tr);
            Kept(ls, s, g, head, at, start) == Kept(ls, s.body, Ctx(p.tr, g.ifLs, false), p.tr, at + |p.code|,
                                                    at + |p.code|)
  {
    hide GenBranch, Gen;
  }

  // ----- Patching ------------------------------------------------------------------------------------

  predicate Covers(h: Handle, pos: int) {
    h.at <= pos < h.at + |h.instrs|
  }

  /** What is at `pos` once the blocks have been patched in this order, when `i` was before. */
  function Filling(hs: seq<Handle>, i: Instr, pos: int): Instr
    decreases |hs|
  {
    if hs == [] then i
    else Filling(hs[1..], if Covers(hs[0], pos) then hs[0].instrs[pos - hs[0].at] else i, pos)
  }

  lemma {:induction false} FillingConcat(a: seq<Handle>, b: seq<Handle>, i: Instr, pos: int)
    ensures Filling(a + b, i, pos) == Filling(b, Filling(a, i, pos), pos)
    decreases |a|
  {
    if a == [] {
      assert a + b == b;
    } else {
      assert (a + b)[1..] == a[1..] + b;
      FillingConcat(a[1..], b, if Covers(a[0], pos) then a[0].instrs[pos - a[0].at] else i, pos);
    }
  }

  ghost predicate Within(hs: seq<Handle>, lo: int, hi: int) {
    forall k :: 0 <= k < |hs| ==> lo <= hs[k].at && hs[k].at + |hs[k].instrs| <= hi
  }

  lemma {:induction false} FillingOutside(hs: seq<Handle>, lo: int, hi: int, i: Instr, pos: int)
    requires Within(hs, lo, hi) && !(lo <= pos < hi)
    ensures Filling(hs, i, pos) == i
    decreases |hs|
  {
    if hs != [] { FillingOutside(hs[1..], lo, hi, i, pos); }
  }
}
