/** Maybe blocks patched after all code has been emitted. */
module Patching {
  import opened Isa
  import opened Structured
  import opened Handles
  import opened Orders
  import opened Choices
  import opened Maybes
  import Tidy
  import Preservation

  /** Code at `at` whose blocks `hs` are patched in as `t` says; with all of them patched in it would be `full`. */
  ghost predicate Layered(hs: seq<Handle>, t: seq<bool>, code: seq<Item>, full: seq<Item>, at: int, end: int,
                          start: int) {
    && |code| == |full| && |t| == |hs| && Within(hs, at, at + |code|)
    && forall i :: 0 <= i < |code| ==>
         Layer(hs, t, at + i, Place(code[i], at + i, end, start), Place(full[i], at + i, end, start))
  }

  lemma LayersSame(a: seq<Item>, at: int, end: int, start: int)
    ensures Layered([], [], a, a, at, end, start)
  {
  }

  /** Blocks elsewhere make no difference. */
  lemma LayerBehind(h: seq<Handle>, s: seq<bool>, k: seq<Handle>, t: seq<bool>, pos: int, i: Instr, full: Instr)
    requires |s| == |h| && |t| == |k| && Bare(h, pos) && Layer(k, t, pos, i, full)
    ensures Layer(h + k, s + t, pos, i, full)
  {
    hide Shown;
    var n, hs, ts := |h|, h + k, s + t;
    ShownBehind(h, s, k, t, pos, 0);
    assert forall j :: 0 <= j < n ==> hs[j] == h[j];
    forall j | n <= j < |hs| && Covers(hs[j], pos)
      ensures hs[j].instrs[pos - hs[j].at] == if Shown(hs, ts, j + 1, pos) then full else Nop
    {
      ShownBehind(h, s, k, t, pos, j - n + 1);
    }
  }

  lemma ShownBehind(h: seq<Handle>, s: seq<bool>, k: seq<Handle>, t: seq<bool>, pos: int, from: nat)
    requires |s| == |h| && |t| == |k| && Bare(h, pos)
    ensures Shown(h + k, s + t, |h| + from, pos) <==> Shown(k, t, from, pos)
    ensures Shown(h + k, s + t, 0, pos) <==> Shown(k, t, 0, pos)
  {
    if Shown(h + k, s + t, |h| + from, pos) {
      forall j | from <= j < |k| && Covers(k[j], pos) ensures t[j] { assert (h + k)[|h| + j] == k[j]; }
    }
    if Shown(h + k, s + t, 0, pos) {
      forall j | 0 <= j < |k| && Covers(k[j], pos) ensures t[j] { assert (h + k)[|h| + j] == k[j]; }
    }
  }

  lemma LayerBefore(h: seq<Handle>, s: seq<bool>, k: seq<Handle>, t: seq<bool>, pos: int, i: Instr, full: Instr)
    requires |s| == |h| && |t| == |k| && Bare(h, pos) && Layer(k, t, pos, i, full)
    ensures Layer(k + h, t + s, pos, i, full)
  {
    hide Shown;
    var hs, ts := k + h, t + s;
    ShownBefore(h, s, k, t, pos, 0);
    assert forall j :: |k| <= j < |hs| ==> hs[j] == h[j - |k|];
    forall j | 0 <= j < |k| && Covers(hs[j], pos)
      ensures hs[j].instrs[pos - hs[j].at] == if Shown(hs, ts, j + 1, pos) then full else Nop
    {
      ShownBefore(h, s, k, t, pos, j + 1);
    }
  }

  lemma ShownBefore(h: seq<Handle>, s: seq<bool>, k: seq<Handle>, t: seq<bool>, pos: int, from: nat)
    requires |s| == |h| && |t| == |k| && Bare(h, pos)
    ensures Shown(k + h, t + s, from, pos) <==> Shown(k, t, from, pos)
  {
    if Shown(k + h, t + s, from, pos) {
      forall j | from <= j < |k| && Covers(k[j], pos) ensures t[j] { assert (k + h)[j] == k[j]; }
    }
  }

  /** No block is at `pos`. */
  ghost predicate Bare(hs: seq<Handle>, pos: int) {
    forall j :: 0 <= j < |hs| ==> !Covers(hs[j], pos)
  }

  lemma LayersConcat(h: seq<Handle>, s: seq<bool>, a: seq<Item>, b: seq<Item>, k: seq<Handle>, t: seq<bool>,
                     c: seq<Item>, d: seq<Item>, at: int, end: int, start: int)
    requires Layered(h, s, a, b, at, end, start) && Layered(k, t, c, d, at + |a|, end, start)
    ensures Layered(k + h, t + s, a + c, b + d, at, end, start)
  {
    hide Layer;
    var x, y := a + c, b + d;
    forall i | 0 <= i < |x|
      ensures Layer(k + h, t + s, at + i, Place(x[i], at + i, end, start), Place(y[i], at + i, end, start))
    {
      if i < |a| {
        LayerBehind(k, t, h, s, at + i, Place(a[i], at + i, end, start), Place(b[i], at + i, end, start));
      } else {
        var j := i - |a|;
        assert x[i] == c[j] && y[i] == d[j] && at + |a| + j == at + i;
        assert Layer(k, t, at + |a| + j, Place(c[j], at + |a| + j, end, start), Place(d[j], at + |a| + j, end, start));
        LayerBefore(h, s, k, t, at + i, Place(c[j], at + i, end, start), Place(d[j], at + i, end, start));
      }
    }
  }

  lemma LayersBehind(p: seq<Item>, h: seq<Handle>, t: seq<bool>, a: seq<Item>, b: seq<Item>, at: int, end: int,
                     start: int)
    requires Layered(h, t, a, b, at + |p|, end, start)
    ensures Layered(h, t, p + a, p + b, at, end, start)
  {
    hide Layered;
    LayersSame(p, at, end, start);
    LayersConcat([], [], p, p, h, t, a, b, at, end, start);
    assert h + [] == h && t + [] == t;
  }

  lemma LayersBefore(h: seq<Handle>, t: seq<bool>, a: seq<Item>, b: seq<Item>, p: seq<Item>, at: int, end: int,
                     start: int)
    requires Layered(h, t, a, b, at, end, start)
    ensures Layered(h, t, a + p, b + p, at, end, start)
  {
    hide Layered;
    LayersSame(p, at + |a|, end, start);
    LayersConcat(h, t, a, b, [], [], p, p, at, end, start);
    assert [] + h == h && [] + t == t;
  }

  lemma LayersResolved(h: seq<Handle>, t: seq<bool>, a: seq<Item>, b: seq<Item>, e: int, s: int, at: int, end: int,
                       start: int)
    requires Layered(h, t, a, b, at, at + e, at + s)
    ensures Layered(h, t, Resolve(a, e, s), Resolve(b, e, s), at, end, start)
  {
    hide Layer;
    forall i | 0 <= i < |a|
      ensures Layer(h, t, at + i, Place(Resolve(a, e, s)[i], at + i, end, start),
                    Place(Resolve(b, e, s)[i], at + i, end, start))
    {
      assert Layer(h, t, at + i, Place(a[i], at + i, at + e, at + s), Place(b[i], at + i, at + e, at + s));
    }
  }

  /** A block around code without branches to its end, patched in or not. */
  lemma LayersBlock(h: seq<Handle>, t: seq<bool>, a: seq<Item>, b: seq<Item>, patched: bool, loads: set<Reg>, at: nat,
                    end: int, start: int)
    requires Layered(h, t, a, b, at, 0, start) && Tidy.Exits(a, false, true) && Tidy.Exits(b, false, true)
    ensures Layered([Handle(at, Placed(a, at, start))] + h, [patched] + t,
                    if patched then a else Blank(|a|, loads), b, at, end, start)
  {
    hide Layer;
    var outer, base := Handle(at, Placed(a, at, start)), if patched then a else Blank(|a|, loads);
    forall i | 0 <= i < |base|
      ensures Layer([outer] + h, [patched] + t, at + i, Place(base[i], at + i, end, start),
                    Place(b[i], at + i, end, start))
    {
      assert Layer(h, t, at + i, Place(a[i], at + i, 0, start), Place(b[i], at + i, 0, start));
      assert Covers(outer, at + i) && outer.instrs[i] == Place(a[i], at + i, 0, start);
      LayerOuter(outer, h, patched, t, at + i, Place(a[i], at + i, 0, start), Place(b[i], at + i, 0, start));
    }
  }

  lemma LayerOuter(outer: Handle, h: seq<Handle>, patched: bool, t: seq<bool>, pos: int, i: Instr, full: Instr)
    requires |t| == |h| && Layer(h, t, pos, i, full) && Covers(outer, pos) && outer.instrs[pos - outer.at] == i
    ensures Layer([outer] + h, [patched] + t, pos, if patched then i else Nop, full)
  {
    hide Shown;
    var hs, ts := [outer] + h, [patched] + t;
    ShownInside(outer, h, patched, t, pos, 0);
    forall j | 0 <= j < |hs| && Covers(hs[j], pos)
      ensures hs[j].instrs[pos - hs[j].at] == if Shown(hs, ts, j + 1, pos) then full else Nop
    {
      assert hs[j] == if j == 0 then outer else h[j - 1];
      ShownInside(outer, h, patched, t, pos, j);
    }
  }

  lemma ShownInside(outer: Handle, h: seq<Handle>, patched: bool, t: seq<bool>, pos: int, from: nat)
    requires |t| == |h| && Covers(outer, pos)
    ensures Shown([outer] + h, [patched] + t, from + 1, pos) <==> Shown(h, t, from, pos)
    ensures Shown([outer] + h, [patched] + t, 0, pos) <==> patched && Shown(h, t, 0, pos)
  {
    var hs, ts := [outer] + h, [patched] + t;
    assert hs[0] == outer && ts[0] == patched;
    if Shown(hs, ts, from + 1, pos) {
      forall j | from <= j < |h| && Covers(h[j], pos) ensures t[j] { assert hs[j + 1] == h[j]; }
    }
    if Shown(hs, ts, 0, pos) {
      forall j | 0 <= j < |h| && Covers(h[j], pos) ensures t[j] { assert hs[j + 1] == h[j]; }
    }
  }

  /** The code of a program is layered so, its blocks patched in as the program says. */
  lemma {:induction false} KeptLayers(ls: nat, s: Stmt, brk: bool, cont: bool, g: Ctx, head: Ls, at: nat, end: int,
                                     start: int)
    requires WellFormed(s, brk, cont)
    ensures Layered(Kept(ls, s, g, head, at, start), Flags(s), Gen(ls, s, g, head).code,
                    Gen(ls, Filled(s), g, head).code, at, end, start)
    decreases s, 1
  {
    hide GenBranch, GenOp, Resolve, Layered, GenCases, KeptCases, FilledCases;
    match s {
      case Seq(a, b) => SeqLayers(ls, s, brk, cont, g, head, at, end, start);
      case If(cond, v, t) => IfLayers(ls, s, brk, cont, g, head, at, end, start);
      case IfElse(_, _, _, _) => ElseLayers(ls, s, brk, cont, g, head, at, end, start);
      case While(cond, v, body) => WhileLayers(ls, s, g, head, at, end, start);
      case Match(v, scratch, cs) => CasesLayers(ls, v, scratch, cs, brk, cont, true, g.tr, IDLE, g.(pend := false),
                                               head, at, end, start);
      case Maybe(patched, body) => MaybeLayers(ls, s, cont, g, head, at, end, start);
      case _ => LayersSame(Gen(ls, s, g, head).code, at, end, start);
    }
  }

  lemma {:induction false} SeqLayers(ls: nat, s: Stmt, brk: bool, cont: bool, g: Ctx, head: Ls, at: nat, end: int,
                                    start: int)
    requires s.Seq? && WellFormed(s, brk, cont)
    ensures Layered(Kept(ls, s, g, head, at, start), Flags(s), Gen(ls, s, g, head).code,
                    Gen(ls, Filled(s), g, head).code, at, end, start)
    decreases s, 0
  {
    hide Layered, Gen, Kept, Filled, WellFormed;
    SeqIs(ls, s, brk, cont, g, head, at, start);
    var x, x' := Gen(ls, s.first, g, head), Gen(ls, Filled(s.first), g, head);
    KeptLayers(ls, s.first, brk, cont, g, head, at, end, start);
    KeptLayers(ls, s.second, brk, cont, x.ctx, head, at + |x.code|, end, start);
    FilledSize(ls, s.first, g, head);
    LayersConcat(Kept(ls, s.first, g, head, at, start), Flags(s.first), x.code, x'.code,
                 Kept(ls, s.second, x.ctx, head, at + |x.code|, start), Flags(s.second),
                 Gen(ls, s.second, x.ctx, head).code, Gen(ls, Filled(s.second), x.ctx, head).code, at, end, start);
  }

  lemma SeqIs(ls: nat, s: Stmt, brk: bool, cont: bool, g: Ctx, head: Ls, at: nat, start: int)
    requires s.Seq?
    ensures WellFormed(s, brk, cont) ==> (WellFormed(s.first, brk, cont) && WellFormed(s.second, brk, cont))
    ensures var x := Gen(ls, s.first, g, head);
            && Gen(ls, s, g, head).code == x.code + Gen(ls, s.second, x.ctx, head).code
            && Kept(ls, s, g, head, at, start) == Kept(ls, s.second, x.ctx, head, at + |x.code|, start)
                   + Kept(ls, s.first, g, head, at, start)
    ensures var x := Gen(ls, Filled(s.first), g, head);
            Gen(ls, Filled(s), g, head).code == x.code + Gen(ls, Filled(s.second), x.ctx, head).code
  {
  }

  lemma {:induction false} IfLayers(ls: nat, s: Stmt, brk: bool, cont: bool, g: Ctx, head: Ls, at: nat, end: int,
                                   start: int)
    requires s.If? && WellFormed(s, brk, cont)
    ensures Layered(Kept(ls, s, g, head, at, start), Flags(s), Gen(ls, s, g, head).code,
                    Gen(ls, Filled(s), g, head).code, at, end, start)
    decreases s, 0
  {
    hide Layered, GenBranch, Resolve, Gen, Kept, Filled, WellFormed;
    IfIs(ls, s, brk, cont, g, head);
    KeptIf(ls, s, g, head, at, start);
    var p := GenBranch(ls, End, Invert(s.cond), s.val, g.tr);
    var g1 := Ctx(p.tr, g.ifLs, false);
    var x, x' := Gen(ls, s.thn, g1, head), Gen(ls, Filled(s.thn), g1, head);
    KeptLayers(ls, s.thn, brk, cont, g1, head, at + |p.code|, end, start);
    FilledSize(ls, s.thn, g1, head);
    LayersBehind(Resolve(p.code, |p.code| + |x.code|, 0), Kept(ls, s.thn, g1, head, at + |p.code|, start),
                 Flags(s.thn), x.code, x'.code, at, end, start);
  }

  lemma IfIs(ls: nat, s: Stmt, brk: bool, cont: bool, g: Ctx, head: Ls)
    requires s.If?
    ensures WellFormed(s, brk, cont) ==> WellFormed(s.thn, brk, cont)
    ensures var p := GenBranch(ls, End, Invert(s.cond), s.val, g.tr);
            var g1 := Ctx(p.tr, g.ifLs, false);
            var x, x' := Gen(ls, s.thn, g1, head), Gen(ls, Filled(s.thn), g1, head);
            && Gen(ls, s, g, head).code == Resolve(p.code, |p.code| + |x.code|, 0) + x.code
            && Gen(ls, Filled(s), g, head).code == Resolve(p.code, |p.code| + |x'.code|, 0) + x'.code
  {
    hide GenBranch, Resolve;
  }

  lemma {:induction false} ElseLayers(ls: nat, s: Stmt, brk: bool, cont: bool, g: Ctx, head: Ls, at: nat, end: int,
                                     start: int)
    requires s.IfElse? && WellFormed(s, brk, cont)
    ensures Layered(Kept(ls, s, g, head, at, start), Flags(s), Gen(ls, s, g, head).code,
                    Gen(ls, Filled(s), g, head).code, at, end, start)
    decreases s, 0
  {
    hide Layered, GenBranch, Resolve, ElseCtx, Gen, Kept, Filled, WellFormed;
    ElseFormed(s, brk, cont);
    var p := GenBranch(ls, End, Invert(s.cond), s.val, g.tr);
    var g1 := Ctx(p.tr, g.ifLs, false);
    var x, x' := Gen(ls, s.thn, g1, head), Gen(ls, Filled(s.thn), g1, head);
    KeptLayers(ls, s.thn, brk, cont, g1, head, at + |p.code|, end, start);
    FilledSize(ls, s.thn, g1, head);
    SameElse(p, x, x');
    var g2, mid := ElseCtx(p, x), at + |p.code| + |x.code|;
    KeptLayers(ls, s.els, brk, cont, g2, head, mid + 1, end, start);
    FilledSize(ls, s.els, g2, head);
    JoinElse(Resolve(p.code, |p.code| + |x.code| + 1, 0), Kept(ls, s.thn, g1, head, at + |p.code|, start),
             Flags(s.thn), x.code, x'.code, Emit(Branch(|Gen(ls, s.els, g2, head).code|, Always, 0), x.ctx.tr.loads),
             Kept(ls, s.els, g2, head, mid + 1, start), Flags(s.els), Gen(ls, s.els, g2, head).code,
             Gen(ls, Filled(s.els), g2, head).code, at, end, start);
    ElseIs(ls, s.cond, s.val, s.thn, s.els, g, head);
    ElseIs(ls, s.cond, s.val, Filled(s.thn), Filled(s.els), g, head);
    KeptElse(ls, s, g, head, at, start);
  }

  lemma ElseFormed(s: Stmt, brk: bool, cont: bool)
    requires s.IfElse?
    ensures WellFormed(s, brk, cont) ==> (WellFormed(s.thn, brk, cont) && WellFormed(s.els, brk, cont))
    ensures s == IfElse(s.cond, s.val, s.thn, s.els) && Filled(s) == IfElse(s.cond, s.val, Filled(s.thn), Filled(s.els))
  {
  }

  lemma JoinElse(r: seq<Item>, h: seq<Handle>, s: seq<bool>, x: seq<Item>, x': seq<Item>, away: Item, k: seq<Handle>,
                 t: seq<bool>, y: seq<Item>, y': seq<Item>, at: int, end: int, start: int)
    requires |x| == |x'| && Layered(h, s, x, x', at + |r|, end, start)
    requires Layered(k, t, y, y', at + |r| + |x| + 1, end, start)
    ensures Layered(k + h, t + s, r + x + [away] + y, r + x' + [away] + y', at, end, start)
  {
    hide Layered;
    LayersBehind(r, h, s, x, x', at, end, start);
    LayersBefore(h, s, r + x, r + x', [away], at, end, start);
    LayersConcat(h, s, r + x + [away], r + x' + [away], k, t, y, y', at, end, start);
  }

  lemma ElseIs(ls: nat, cond: Cond, v: Val, t: Stmt, e: Stmt, g: Ctx, head: Ls)
    ensures var p := GenBranch(ls, End, Invert(cond), v, g.tr);
            var x := Gen(ls, t, Ctx(p.tr, g.ifLs, false), head);
            var y := Gen(ls, e, ElseCtx(p, x), head);
            Gen(ls, IfElse(cond, v, t, e), g, head).code
            == Resolve(p.code, |p.code| + |x.code| + 1, 0) + x.code
                    + [Emit(Branch(|y.code|, Always, 0), x.ctx.tr.loads)] + y.code
  {
    hide GenBranch, Resolve, ElseCtx;
  }

  lemma {:induction false} WhileLayers(ls: nat, s: Stmt, g: Ctx, head: Ls, at: nat, end: int, start: int)
    requires s.While? && WellFormed(s, false, false)
    ensures Layered(Kept(ls, s, g, head, at, start), Flags(s), Gen(ls, s, g, head).code,
                    Gen(ls, Filled(s), g, head).code, at, end, start)
    decreases s, 0
  {
    hide Layered, GenBranch, Resolve, Gen, Kept, Filled, WellFormed;
    WhileIs(ls, s, g, head, at, start);
    var p := if s.cond == Always then Piece([], g.tr) else GenBranch(ls, End, Invert(s.cond), s.val, g.tr);
    var g1 := Ctx(p.tr, g.ifLs, false);
    var x, x' := Gen(ls, s.body, g1, p.tr), Gen(ls, Filled(s.body), g1, p.tr);
    FilledSize(ls, s.body, g1, p.tr);
    var q := Round(ls, s.cond, s.val, p, x);
    var top := at + |p.code|;
    var stop := top + |x.code| + |q|;
    var h := Kept(ls, s.body, g1, p.tr, top, top);
    KeptLayers(ls, s.body, true, true, g1, p.tr, top, stop, top);
    JoinLoop(p.code, h, Flags(s.body), x.code, x'.code, q, at, end, start);
  }

  /** The branch back, with the WAIT in front of it. */
  function Round(ls: nat, cond: Cond, v: Val, p: Piece, x: Out): seq<Item> {
    var w := LoopWait(ls, p, x);
    w.code + GenBranch(ls, Start, cond, v, w.tr).code
  }

  lemma WhileIs(ls: nat, s: Stmt, g: Ctx, head: Ls, at: nat, start: int)
    requires s.While? && WellFormed(s, false, false)
    ensures var p := if s.cond == Always then Piece([], g.tr) else GenBranch(ls, End, Invert(s.cond), s.val, g.tr);
            var g1, top := Ctx(p.tr, g.ifLs, false), at + |p.code|;
            && WellFormed(s.body, true, true) && Filled(s) == While(s.cond, s.val, Filled(s.body))
            && WhileCode(ls, s.cond, s.val, s.body, g, head) && WhileCode(ls, s.cond, s.val, Filled(s.body), g, head)
            && s == While(s.cond, s.val, s.body)
            && Kept(ls, s, g, head, at, start) == Kept(ls, s.body, g1, p.tr, top, top)
  {
    hide GenBranch, Gen;
    WhileCodeIs(ls, s.cond, s.val, s.body, g, head);
    WhileCodeIs(ls, s.cond, s.val, Filled(s.body), g, head);
  }

  ghost predicate WhileCode(ls: nat, cond: Cond, v: Val, body: Stmt, g: Ctx, head: Ls) {
    var p := if cond == Always then Piece([], g.tr) else GenBranch(ls, End, Invert(cond), v, g.tr);
    var x := Gen(ls, body, Ctx(p.tr, g.ifLs, false), p.tr);
    var inner := p.code + x.code + Round(ls, cond, v, p, x);
    Gen(ls, While(cond, v, body), g, head).code == Resolve(inner, |inner|, |p.code|)
  }

  lemma WhileCodeIs(ls: nat, cond: Cond, v: Val, body: Stmt, g: Ctx, head: Ls)
    ensures WhileCode(ls, cond, v, body, g, head)
  {
    hide GenBranch, Resolve;
    var p := if cond == Always then Piece([], g.tr) else GenBranch(ls, End, Invert(cond), v, g.tr);
    var x := Gen(ls, body, Ctx(p.tr, g.ifLs, false), p.tr);
    var w := LoopWait(ls, p, x);
    var q := GenBranch(ls, Start, cond, v, w.tr).code;
    assert p.code + x.code + (w.code + q) == p.code + x.code + w.code + q;
  }

  lemma JoinLoop(p: seq<Item>, h: seq<Handle>, t: seq<bool>, x: seq<Item>, x': seq<Item>, q: seq<Item>, at: int,
                 end: int, start: int)
    requires |x| == |x'| && Layered(h, t, x, x', at + |p|, at + |p| + |x| + |q|, at + |p|)
    ensures var n := |p| + |x| + |q|;
            Layered(h, t, Resolve(p + x + q, n, |p|), Resolve(p + x' + q, n, |p|), at, end, start)
  {
    hide Layered, Resolve;
    var n := |p| + |x| + |q|;
    LayersBehind(p, h, t, x, x', at, at + n, at + |p|);
    LayersBefore(h, t, p + x, p + x', q, at, at + n, at + |p|);
    LayersResolved(h, t, p + x + q, p + x' + q, n, |p|, at, end, start);
  }

  lemma {:induction false} MaybeLayers(ls: nat, s: Stmt, cont: bool, g: Ctx, head: Ls, at: nat, end: int, start: int)
    requires s.Maybe? && WellFormed(s.body, false, cont)
    ensures Layered(Kept(ls, s, g, head, at, start), Flags(s), Gen(ls, s, g, head).code,
                    Gen(ls, Filled(s), g, head).code, at, end, start)
    decreases s, 0
  {
    hide Layered, Tidy.Exits;
    var g1 := g.(pend := false);
    var x, x' := Gen(ls, s.body, g1, head), Gen(ls, Filled(s.body), g1, head);
    var w := MaybeWait(ls, g.tr, x);
    FilledSize(ls, s.body, g1, head);
    KeptLayers(ls, s.body, false, cont, g1, head, at, 0, start);
    FilledFormed(s.body, false, cont);
    Tidy.CodeExits(ls, s.body, false, cont, g1, head);
    Tidy.CodeExits(ls, Filled(s.body), false, cont, g1, head);
    var need := x.ctx.tr.loads - g.tr.loads != {} || (x.ctx.tr.stores && !g.tr.stores);
    BlockExits(x.code, cont, ls, need, x.ctx.tr);
    BlockExits(x'.code, cont, ls, need, x.ctx.tr);
    var h := Kept(ls, s.body, g1, head, at, start);
    LayersBefore(h, Flags(s.body), x.code, x'.code, w.code, at, 0, start);
    LayersBlock(h, Flags(s.body), x.code + w.code, x'.code + w.code, s.patched, g.tr.loads, at, end, start);
  }

  lemma BlockExits(code: seq<Item>, cont: bool, ls: nat, need: bool, tr: Ls)
    requires Tidy.Exits(code, false, cont)
    ensures Tidy.Exits(code + WaitIf(ls, need, tr).code, false, true)
  {
  }

  lemma {:induction false} CasesLayers(ls: nat, v: Reg, scratch: Reg, cs: Cases, brk: bool, cont: bool, first: bool,
                                      orig: Ls, acc: Ls, g: Ctx, head: Ls, at: nat, end: int, start: int)
    requires WellFormedCases(cs, brk, cont)
    ensures Layered(KeptCases(ls, v, scratch, cs, first, orig, acc, g, head, at, start), FlagsCases(cs),
                    GenCases(ls, v, scratch, cs, first, orig, acc, g, head).code,
                    GenCases(ls, v, scratch, FilledCases(cs), first, orig, acc, g, head).code, at, end, start)
    decreases cs, 3
  {
    hide Layered, Gen, Kept, GenTest;
    match cs
    case NoCase => LayersSame([], at, end, start);
    case Default(body) => KeptLayers(ls, body, brk, cont, Ctx(orig, g.ifLs, false), head, at, end, start);
    case Case(_, _, _) => CaseLayers(ls, v, scratch, cs, brk, cont, first, orig, acc, g, head, at, end, start);
  }

  lemma {:induction false} CaseLayers(ls: nat, v: Reg, scratch: Reg, cs: Cases, brk: bool, cont: bool, first: bool,
                                     orig: Ls, acc: Ls, g: Ctx, head: Ls, at: nat, end: int, start: int)
    requires cs.Case? && WellFormedCases(cs, brk, cont)
    ensures Layered(KeptCases(ls, v, scratch, cs, first, orig, acc, g, head, at, start), FlagsCases(cs),
                    GenCases(ls, v, scratch, cs, first, orig, acc, g, head).code,
                    GenCases(ls, v, scratch, FilledCases(cs), first, orig, acc, g, head).code, at, end, start)
    decreases cs, 2
  {
    hide Layered, Gen, GenCases, Kept, KeptCases, GenTest, WellFormed, WellFormedCases, Filled, FilledCases;
    CaseIs(cs, brk, cont);
    var view := if first then g.tr.loads else orig.loads;
    var p := GenTest(ls, v, scratch, cs.id, 0, g.tr, view);
    var orig' := if first then p.tr else orig;
    var g1 := Ctx(orig', g.ifLs, false);
    var x, x' := Gen(ls, cs.body, g1, head), Gen(ls, Filled(cs.body), g1, head);
    FilledSize(ls, cs.body, g1, head);
    var acc', mid := Join(acc, x.ctx.tr), at + |p.code| + |x.code|;
    KeptLayers(ls, cs.body, brk, cont, g1, head, at + |p.code|, end, start);
    CasesLayers(ls, v, scratch, cs.rest, brk, cont, false, orig', acc', x.ctx, head, mid + 1, end, start);
    CasesSize(ls, v, scratch, cs.rest, false, orig', acc', x.ctx, head);
    var more := if cs.rest.NoCase? then 0 else 1;
    var y, y' := GenCases(ls, v, scratch, cs.rest, false, orig', acc', x.ctx, head),
                 GenCases(ls, v, scratch, FilledCases(cs.rest), false, orig', acc', x.ctx, head);
    TestLength(ls, v, scratch, cs.id, |x.code| + more, g.tr, view);
    CaseShape(ls, v, scratch, cs.id, cs.body, cs.rest, first, orig, acc, g, head, at, start);
    CaseShape(ls, v, scratch, cs.id, Filled(cs.body), FilledCases(cs.rest), first, orig, acc, g, head, at, start);
    JoinCase(GenTest(ls, v, scratch, cs.id, |x.code| + more, g.tr, view).code,
             Kept(ls, cs.body, g1, head, at + |p.code|, start), Flags(cs.body), x.code, x'.code,
             [Emit(Branch(|y.code|, Always, 0), x.ctx.tr.loads)],
             KeptCases(ls, v, scratch, cs.rest, false, orig', acc', x.ctx, head, mid + 1, start), FlagsCases(cs.rest),
             y.code, y'.code, cs.rest.NoCase?, at, end, start);
  }

  lemma CaseShape(ls: nat, v: Reg, scratch: Reg, id: Word, body: Stmt, rest: Cases, first: bool, orig: Ls, acc: Ls,
                  g: Ctx, head: Ls, at: nat, start: int)
    ensures var view := if first then g.tr.loads else orig.loads;
            var p := GenTest(ls, v, scratch, id, 0, g.tr, view);
            var orig' := if first then p.tr else orig;
            var g1 := Ctx(orig', g.ifLs, false);
            var x := Gen(ls, body, g1, head);
            var acc' := Join(acc, x.ctx.tr);
            var y := GenCases(ls, v, scratch, rest, false, orig', acc', x.ctx, head);
            var test := GenTest(ls, v, scratch, id, |x.code| + if rest.NoCase? then 0 else 1, g.tr, view).code;
            && GenCases(ls, v, scratch, Case(id, body, rest), first, orig, acc, g, head).code
               == test + x.code + (if rest.NoCase? then []
                                   else [Emit(Branch(|y.code|, Always, 0), x.ctx.tr.loads)] + y.code)
            && KeptCases(ls, v, scratch, Case(id, body, rest), first, orig, acc, g, head, at, start)
               == KeptCases(ls, v, scratch, rest, false, orig', acc', x.ctx, head, at + |p.code| + |x.code| + 1, start)
                  + Kept(ls, body, g1, head, at + |p.code|, start)
            && (rest.NoCase? ==> y.code == [] && KeptCases(ls, v, scratch, rest, false, orig', acc', x.ctx, head,
                                                           at + |p.code| + |x.code| + 1, start) == [])
  {
    hide Gen, GenTest, Kept;
  }

  lemma TestLength(ls: nat, v: Reg, scratch: Reg, id: Word, n: nat, tr: Ls, view: set<Reg>)
    ensures |GenTest(ls, v, scratch, id, n, tr, view).code| == |GenTest(ls, v, scratch, id, 0, tr, view).code|
  {
  }

  /** A case, and what is behind it. */
  lemma JoinCase(test: seq<Item>, h: seq<Handle>, s: seq<bool>, x: seq<Item>, x': seq<Item>, away: seq<Item>,
                 k: seq<Handle>, t: seq<bool>, y: seq<Item>, y': seq<Item>, last: bool, at: int, end: int, start: int)
    requires |x| == |x'| && |away| == 1 && Layered(h, s, x, x', at + |test|, end, start)
    requires (last ==> k == [] && t == [] && y == [] && y' == [])
    requires Layered(k, t, y, y', at + |test| + |x| + 1, end, start)
    ensures Layered(k + h, t + s, test + x + (if last then [] else away + y),
                    test + x' + (if last then [] else away + y'), at, end, start)
  {
    hide Layered;
    LayersBehind(test, h, s, x, x', at, end, start);
    if last {
      assert k + h == h && t + s == s && test + x + [] == test + x && test + x' + [] == test + x';
    } else {
      LayersBehind(away, k, t, y, y', at + |test| + |x|, end, start);
      LayersConcat(h, s, test + x, test + x', k, t, away + y, away + y', at, end, start);
    }
  }

  // ----- Blocks inside blocks ------------------------------------------------------------------------------

  lemma NestedBoth(h: seq<Handle>, k: seq<Handle>, lo: int, mid: int, mid': int, hi: int)
    requires Nested(h, lo, mid) && Nested(k, mid', hi) && lo <= mid <= mid' <= hi
    ensures Nested(k + h, lo, hi)
  {
  }

  lemma NestedMore(h: seq<Handle>, lo: int, hi: int, lo': int, hi': int)
    requires Nested(h, lo, hi) && lo' <= lo && hi <= hi'
    ensures Nested(h, lo', hi')
  {
  }

  lemma NestedBlock(h: seq<Handle>, outer: Handle, lo: int, hi: int)
    requires Nested(h, outer.at, outer.at + |outer.instrs|) && lo <= outer.at && outer.at + |outer.instrs| <= hi
    ensures Nested([outer] + h, lo, hi)
  {
    var hs := [outer] + h;
    forall j, k | 0 <= j < k < |hs| && Overlap(hs[j], hs[k])
      ensures hs[j].at <= hs[k].at && hs[k].at + |hs[k].instrs| <= hs[j].at + |hs[j].instrs|
    {
      assert hs[k] == h[k - 1];
      if j > 0 { assert hs[j] == h[j - 1]; }
    }
  }

  /** The list a program leaves has an enclosing block before those inside it. */
  lemma {:induction false} KeptNested(ls: nat, s: Stmt, g: Ctx, head: Ls, at: nat, start: int)
    ensures Nested(Kept(ls, s, g, head, at, start), at, at + |Gen(ls, s, g, head).code|)
    decreases s, 1
  {
    hide GenBranch, GenOp, Resolve, Nested, GenCases, KeptCases;
    match s
    case Seq(a, b) =>
      var x := Gen(ls, a, g, head);
      KeptNested(ls, a, g, head, at, start);
      KeptNested(ls, b, x.ctx, head, at + |x.code|, start);
      NestedBoth(Kept(ls, a, g, head, at, start), Kept(ls, b, x.ctx, head, at + |x.code|, start), at, at + |x.code|,
                 at + |x.code|, at + |Gen(ls, s, g, head).code|);
    case If(cond, v, t) =>
      var p := GenBranch(ls, End, Invert(cond), v, g.tr);
      var g1 := Ctx(p.tr, g.ifLs, false);
      KeptNested(ls, t, g1, head, at + |p.code|, start);
      var n := |p.code| + |Gen(ls, t, g1, head).code|;
      NestedMore(Kept(ls, t, g1, head, at + |p.code|, start), at + |p.code|, at + n, at, at + n);
    case IfElse(_, _, _, _) => ElseNested(ls, s, g, head, at, start);
    case While(cond, v, body) =>
      var p := if cond == Always then Piece([], g.tr) else GenBranch(ls, End, Invert(cond), v, g.tr);
      var g1, top := Ctx(p.tr, g.ifLs, false), at + |p.code|;
      KeptNested(ls, body, g1, p.tr, top, top);
      NestedMore(Kept(ls, body, g1, p.tr, top, top), top, top + |Gen(ls, body, g1, p.tr).code|, at,
                 at + |Gen(ls, s, g, head).code|);
    case Match(v, scratch, cs) => KeptCasesNested(ls, v, scratch, cs, true, g.tr, IDLE, g.(pend := false), head, at,
                                                  start);
    case Maybe(_, body) =>
      var g1 := g.(pend := false);
      var x := Gen(ls, body, g1, head);
      var w := MaybeWait(ls, g.tr, x).code;
      KeptNested(ls, body, g1, head, at, start);
      NestedMore(Kept(ls, body, g1, head, at, start), at, at + |x.code|, at, at + |x.code + w|);
      NestedBlock(Kept(ls, body, g1, head, at, start), Handle(at, Placed(x.code + w, at, start)), at,
                  at + |x.code + w|);
    case _ => NestedNothing(at, at + |Gen(ls, s, g, head).code|);
  }

  lemma {:induction false} ElseNested(ls: nat, s: Stmt, g: Ctx, head: Ls, at: nat, start: int)
    requires s.IfElse?
    ensures Nested(Kept(ls, s, g, head, at, start), at, at + |Gen(ls, s, g, head).code|)
    decreases s, 0
  {
    hide GenBranch, Gen, Kept, Resolve, Nested, ElseCtx;
    var p := GenBranch(ls, End, Invert(s.cond), s.val, g.tr);
    var g1 := Ctx(p.tr, g.ifLs, false);
    var x := Gen(ls, s.thn, g1, head);
    var mid := at + |p.code| + |x.code|;
    ElseIs(ls, s.cond, s.val, s.thn, s.els, g, head);
    KeptElse(ls, s, g, head, at, start);
    KeptNested(ls, s.thn, g1, head, at + |p.code|, start);
    KeptNested(ls, s.els, ElseCtx(p, x), head, mid + 1, start);
    var h, k := Kept(ls, s.thn, g1, head, at + |p.code|, start), Kept(ls, s.els, ElseCtx(p, x), head, mid + 1, start);
    NestedMore(h, at + |p.code|, mid, at, mid);
    NestedBoth(h, k, at, mid, mid + 1, mid + 1 + |Gen(ls, s.els, ElseCtx(p, x), head).code|);
    assert s == IfElse(s.cond, s.val, s.thn, s.els);
  }

  lemma NestedNothing(lo: int, hi: int)
    ensures Nested([], lo, hi)
  {
  }

  lemma {:induction false} KeptCasesNested(ls: nat, v: Reg, scratch: Reg, cs: Cases, first: bool, orig: Ls, acc: Ls,
                                           g: Ctx, head: Ls, at: nat, start: int)
    ensures Nested(KeptCases(ls, v, scratch, cs, first, orig, acc, g, head, at, start),
                   at, at + |GenCases(ls, v, scratch, cs, first, orig, acc, g, head).code|)
    decreases cs, 0
  {
    hide Gen, GenTest, Kept, Nested;
    match cs
    case NoCase => NestedNothing(at, at);
    case Default(body) => KeptNested(ls, body, Ctx(orig, g.ifLs, false), head, at, start);
    case Case(id, body, rest) =>
      CaseShape(ls, v, scratch, id, body, rest, first, orig, acc, g, head, at, start);
      var view := if first then g.tr.loads else orig.loads;
      var p := GenTest(ls, v, scratch, id, 0, g.tr, view);
      var orig' := if first then p.tr else orig;
      var g1 := Ctx(orig', g.ifLs, false);
      var x := Gen(ls, body, g1, head);
      TestLength(ls, v, scratch, id, |x.code| + if rest.NoCase? then 0 else 1, g.tr, view);
      var acc', mid := Join(acc, x.ctx.tr), at + |p.code| + |x.code|;
      KeptNested(ls, body, g1, head, at + |p.code|, start);
      KeptCasesNested(ls, v, scratch, rest, false, orig', acc', x.ctx, head, mid + 1, start);
      var h, k := Kept(ls, body, g1, head, at + |p.code|, start), KeptCases(ls, v, scratch, rest, false, orig', acc',
                                                                            x.ctx, head, mid + 1, start);
      NestedMore(h, at + |p.code|, mid, at, mid);
      if rest.NoCase? {
        assert k + h == h;
      } else {
        NestedBoth(h, k, at, mid, mid + 1,
                   mid + 1 + |GenCases(ls, v, scratch, rest, false, orig', acc', x.ctx, head).code|);
      }
  }

  // ----- Any choice of blocks ------------------------------------------------------------------------------

  /** The same blocks, whatever is in them. */
  ghost predicate Alike(h: seq<Handle>, k: seq<Handle>) {
    |h| == |k| && forall j :: 0 <= j < |h| ==> h[j].at == k[j].at && |h[j].instrs| == |k[j].instrs|
  }

  lemma AlikeConcat(h: seq<Handle>, k: seq<Handle>, h': seq<Handle>, k': seq<Handle>)
    requires Alike(h, h') && Alike(k, k')
    ensures Alike(h + k, h' + k')
  {
  }

  lemma {:induction false} SameBlocks(ls: nat, s: Stmt, t: seq<bool>, g: Ctx, head: Ls, at: nat, start: int)
    requires |t| == |Flags(s)|
    ensures Alike(Kept(ls, s, g, head, at, start), Kept(ls, With(s, t), g, head, at, start))
    decreases s, 1
  {
    hide Gen, GenBranch, Alike, KeptCases;
    match s
    case Seq(_, _) => SameSeqBlocks(ls, s, t, g, head, at, start);
    case If(_, _, _) => SameIfBlocks(ls, s, t, g, head, at, start);
    case IfElse(_, _, _, _) => SameElseBlocks(ls, s, t, g, head, at, start);
    case While(_, _, _) => SameLoopBlocks(ls, s, t, g, head, at, start);
    case Match(v, scratch, cs) => SameCaseBlocks(ls, v, scratch, cs, t, true, g.tr, IDLE, g.(pend := false), head, at,
                                                 start);
    case Maybe(_, _) => SameBlockBlocks(ls, s, t, g, head, at, start);
    case _ => AlikeNothing();
  }

  lemma AlikeNothing()
    ensures Alike([], [])
  {
  }

  lemma AlikeBlock(h: seq<Handle>, k: seq<Handle>, a: Handle, b: Handle)
    requires Alike(h, k) && a.at == b.at && |a.instrs| == |b.instrs|
    ensures Alike([a] + h, [b] + k)
  {
  }

  lemma {:induction false} SameIfBlocks(ls: nat, s: Stmt, t: seq<bool>, g: Ctx, head: Ls, at: nat, start: int)
    requires s.If? && |t| == |Flags(s)|
    ensures Alike(Kept(ls, s, g, head, at, start), Kept(ls, With(s, t), g, head, at, start))
    decreases s, 0
  {
    hide GenBranch, Gen, Kept, Alike;
    var p := GenBranch(ls, End, Invert(s.cond), s.val, g.tr);
    KeptIf(ls, s, g, head, at, start);
    KeptIf(ls, With(s, t), g, head, at, start);
    SameBlocks(ls, s.thn, t, Ctx(p.tr, g.ifLs, false), head, at + |p.code|, start);
  }

  lemma {:induction false} SameLoopBlocks(ls: nat, s: Stmt, t: seq<bool>, g: Ctx, head: Ls, at: nat, start: int)
    requires s.While? && |t| == |Flags(s)|
    ensures Alike(Kept(ls, s, g, head, at, start), Kept(ls, With(s, t), g, head, at, start))
    decreases s, 0
  {
    hide GenBranch, Gen, Kept, Alike;
    var p := if s.cond == Always then Piece([], g.tr) else GenBranch(ls, End, Invert(s.cond), s.val, g.tr);
    KeptWhile(ls, s, g, head, at, start);
    KeptWhile(ls, With(s, t), g, head, at, start);
    SameBlocks(ls, s.body, t, Ctx(p.tr, g.ifLs, false), p.tr, at + |p.code|, at + |p.code|);
  }

  lemma {:induction false} SameSeqBlocks(ls: nat, s: Stmt, t: seq<bool>, g: Ctx, head: Ls, at: nat, start: int)
    requires s.Seq? && |t| == |Flags(s)|
    ensures Alike(Kept(ls, s, g, head, at, start), Kept(ls, With(s, t), g, head, at, start))
    decreases s, 0
  {
    hide Gen, Alike;
    var a, b, ta, tb := s.first, s.second, t[|Flags(s.second)|..], t[..|Flags(s.second)|];
    var x := Gen(ls, a, g, head);
    WithSize(ls, a, ta, g, head);
    SameBlocks(ls, a, ta, g, head, at, start);
    SameBlocks(ls, b, tb, x.ctx, head, at + |x.code|, start);
    AlikeConcat(Kept(ls, b, x.ctx, head, at + |x.code|, start), Kept(ls, a, g, head, at, start),
                Kept(ls, With(b, tb), x.ctx, head, at + |x.code|, start), Kept(ls, With(a, ta), g, head, at, start));
  }

  lemma {:induction false} SameBlockBlocks(ls: nat, s: Stmt, t: seq<bool>, g: Ctx, head: Ls, at: nat, start: int)
    requires s.Maybe? && |t| == |Flags(s)|
    ensures Alike(Kept(ls, s, g, head, at, start), Kept(ls, With(s, t), g, head, at, start))
    decreases s, 0
  {
    hide Gen, Alike;
    var body, g1 := s.body, g.(pend := false);
    var x, y := Gen(ls, body, g1, head), Gen(ls, With(body, t[1..]), g1, head);
    WithSize(ls, body, t[1..], g1, head);
    SameBlocks(ls, body, t[1..], g1, head, at, start);
    AlikeBlock(Kept(ls, body, g1, head, at, start), Kept(ls, With(body, t[1..]), g1, head, at, start),
               Handle(at, Placed(x.code + MaybeWait(ls, g.tr, x).code, at, start)),
               Handle(at, Placed(y.code + MaybeWait(ls, g.tr, y).code, at, start)));
  }

  lemma {:induction false} SameElseBlocks(ls: nat, s: Stmt, t: seq<bool>, g: Ctx, head: Ls, at: nat, start: int)
    requires s.IfElse? && |t| == |Flags(s)|
    ensures Alike(Kept(ls, s, g, head, at, start), Kept(ls, With(s, t), g, head, at, start))
    decreases s, 0
  {
    hide GenBranch, Gen, Kept, Resolve, ElseCtx, Alike;
    var te, tx := t[..|Flags(s.els)|], t[|Flags(s.els)|..];
    var p := GenBranch(ls, End, Invert(s.cond), s.val, g.tr);
    var g1 := Ctx(p.tr, g.ifLs, false);
    var x, x' := Gen(ls, s.thn, g1, head), Gen(ls, With(s.thn, tx), g1, head);
    WithSize(ls, s.thn, tx, g1, head);
    SameElse(p, x, x');
    var g2, mid := ElseCtx(p, x), at + |p.code| + |x.code|;
    KeptElse(ls, s, g, head, at, start);
    KeptElse(ls, With(s, t), g, head, at, start);
    SameBlocks(ls, s.thn, tx, g1, head, at + |p.code|, start);
    SameBlocks(ls, s.els, te, g2, head, mid + 1, start);
    AlikeConcat(Kept(ls, s.els, g2, head, mid + 1, start), Kept(ls, s.thn, g1, head, at + |p.code|, start),
                Kept(ls, With(s.els, te), g2, head, mid + 1, start),
                Kept(ls, With(s.thn, tx), g1, head, at + |p.code|, start));
  }

  lemma {:induction false} SameCaseBlocks(ls: nat, v: Reg, scratch: Reg, cs: Cases, t: seq<bool>, first: bool, orig: Ls,
                                          acc: Ls, g: Ctx, head: Ls, at: nat, start: int)
    requires |t| == |FlagsCases(cs)|
    ensures Alike(KeptCases(ls, v, scratch, cs, first, orig, acc, g, head, at, start),
                  KeptCases(ls, v, scratch, WithCases(cs, t), first, orig, acc, g, head, at, start))
    decreases cs, 0
  {
    hide Gen, GenTest, Kept, Alike;
    match cs
    case NoCase => AlikeNothing();
    case Default(body) => SameBlocks(ls, body, t, Ctx(orig, g.ifLs, false), head, at, start);
    case Case(id, body, rest) =>
      var tr, tb := t[..|FlagsCases(rest)|], t[|FlagsCases(rest)|..];
      CaseShape(ls, v, scratch, id, body, rest, first, orig, acc, g, head, at, start);
      CaseShape(ls, v, scratch, id, With(body, tb), WithCases(rest, tr), first, orig, acc, g, head, at, start);
      var view := if first then g.tr.loads else orig.loads;
      var p := GenTest(ls, v, scratch, id, 0, g.tr, view);
      var orig' := if first then p.tr else orig;
      var g1 := Ctx(orig', g.ifLs, false);
      var x := Gen(ls, body, g1, head);
      var acc', mid := Join(acc, x.ctx.tr), at + |p.code| + |x.code|;
      WithSize(ls, body, tb, g1, head);
      SameBlocks(ls, body, tb, g1, head, at + |p.code|, start);
      SameCaseBlocks(ls, v, scratch, rest, tr, false, orig', acc', x.ctx, head, mid + 1, start);
      AlikeConcat(KeptCases(ls, v, scratch, rest, false, orig', acc', x.ctx, head, mid + 1, start),
                  Kept(ls, body, g1, head, at + |p.code|, start),
                  KeptCases(ls, v, scratch, WithCases(rest, tr), false, orig', acc', x.ctx, head, mid + 1, start),
                  Kept(ls, With(body, tb), g1, head, at + |p.code|, start));
  }

  /** The finished code of a program with all its maybe blocks filled in. */
  function Full(ls: nat, s: Stmt, g: Ctx): seq<Instr> {
    Preservation.Finish(Gen(ls, Filled(s), g, IDLE).code)
  }

  lemma FinishLayers(ls: nat, s: Stmt, g: Ctx)
    requires WellFormed(s, false, false)
    ensures var hs := Kept(ls, s, g, IDLE, 0, 0);
            var code := Preservation.Finish(Gen(ls, s, g, IDLE).code);
            && |hs| == |Flags(s)| && |code| == |Full(ls, s, g)| && Nested(hs, 0, |code|)
            && forall pos :: 0 <= pos < |code| ==> Layer(hs, Flags(s), pos, code[pos], Full(ls, s, g)[pos])
  {
    hide Gen, Kept, WellFormed, Filled, Flags, Nested, Layer;
    var hs, x, z := Kept(ls, s, g, IDLE, 0, 0), Gen(ls, s, g, IDLE).code, Gen(ls, Filled(s), g, IDLE).code;
    KeptLayers(ls, s, false, false, g, IDLE, 0, 0, 0);
    KeptNested(ls, s, g, IDLE, 0, 0);
    forall pos | 0 <= pos < |x|
      ensures Layer(hs, Flags(s), pos, Preservation.Finish(x)[pos], Preservation.Finish(z)[pos])
    {
      assert Layer(hs, Flags(s), 0 + pos, Place(x[pos], 0 + pos, 0, 0), Place(z[pos], 0 + pos, 0, 0));
    }
  }

  /** Patching the blocks of a program in some order, some of them several times, others never, gives the code of
      the program with exactly the blocks `want` filled in if and only if the order meets `want`. */
  lemma PatchedExactly(ls: nat, s: Stmt, g: Ctx, order: seq<nat>, want: seq<bool>)
    requires WellFormed(s, false, false) && |want| == |Flags(s)| && InRange(Kept(ls, s, g, IDLE, 0, 0), order)
    ensures var hs := Kept(ls, s, g, IDLE, 0, 0);
            && |hs| == |Flags(s)|
            && (Apply(Ordered(hs, order), Preservation.Finish(Gen(ls, s, g, IDLE).code))
                == Preservation.Finish(Gen(ls, With(s, want), g, IDLE).code)
                <==> Meets(hs, Flags(s), order, want, Full(ls, s, g)))
  {
    hide Gen, Kept, WellFormed, Filled, Flags, With, Nested, Layer, Shown, Meets, Apply, Preservation.Finish;
    var hs, ks := Kept(ls, s, g, IDLE, 0, 0), Kept(ls, With(s, want), g, IDLE, 0, 0);
    FinishLayers(ls, s, g);
    WithIs(s, want);
    WithFormed(s, want, false, false);
    FinishLayers(ls, With(s, want), g);
    SameBlocks(ls, s, want, g, IDLE, 0, 0);
    var y := Preservation.Finish(Gen(ls, With(s, want), g, IDLE).code);
    forall pos | 0 <= pos < |y| ensures y[pos] == if Shown(hs, want, 0, pos) then Full(ls, s, g)[pos] else Nop {
      LayerHere(ks, hs, want, pos, y[pos], Full(ls, s, g)[pos]);
    }
    MeetsExactly(hs, Flags(s), order, want, Preservation.Finish(Gen(ls, s, g, IDLE).code), Full(ls, s, g), y);
  }

  /** Whatever the order, nothing is there but what belongs there, or a NOP. */
  lemma PatchedMixed(ls: nat, s: Stmt, g: Ctx, order: seq<nat>)
    requires WellFormed(s, false, false) && InRange(Kept(ls, s, g, IDLE, 0, 0), order)
    ensures var r := Apply(Ordered(Kept(ls, s, g, IDLE, 0, 0), order), Preservation.Finish(Gen(ls, s, g, IDLE).code));
            && |r| == |Full(ls, s, g)|
            && forall pos :: 0 <= pos < |r| ==> r[pos] == Full(ls, s, g)[pos] || r[pos] == Nop
  {
    hide Gen, Kept, WellFormed, Filled, Flags, Nested, Layer, Apply, Preservation.Finish;
    FinishLayers(ls, s, g);
    Mixed(Kept(ls, s, g, IDLE, 0, 0), Flags(s), order, Preservation.Finish(Gen(ls, s, g, IDLE).code), Full(ls, s, g));
  }

  lemma LayerHere(ks: seq<Handle>, hs: seq<Handle>, t: seq<bool>, pos: int, i: Instr, full: Instr)
    requires |t| == |ks| && Layer(ks, t, pos, i, full) && Alike(hs, ks)
    ensures i == if Shown(hs, t, 0, pos) then full else Nop
  {
  }

  /** The other order goes wrong: a block patched after one inside it, which was left out when it was closed,
      blanks that one again. */
  lemma InsideOut(ls: nat, outer: bool, body: Stmt, g: Ctx, head: Ls, at: nat, start: int, i: Instr, k: nat)
    ensures var hs := Kept(ls, Maybe(outer, Maybe(false, body)), g, head, at, start);
            && |hs| >= 2 && (k < |hs[1].instrs| ==> Covers(hs[0], at + k) && Covers(hs[1], at + k)
                                                    && Filling([hs[1], hs[0]], i, at + k) == Nop)
  {
    hide Gen, Filling;
    var g1 := g.(pend := false);
    var inner := Maybe(false, body);
    var hs := Kept(ls, Maybe(outer, inner), g, head, at, start);
    var x := Gen(ls, inner, g1, head);
    assert Kept(ls, Maybe(outer, inner), g, head, at, start)
        == [Handle(at, Placed(x.code + MaybeWait(ls, g.tr, x).code, at, start))] + Kept(ls, inner, g1, head, at, start);
    LeftBlank(ls, body, g1, head);
    if k < |hs[1].instrs| {
      OuterLast([hs[1]], hs[0], i, at + k);
      assert [hs[1]] + [hs[0]] == [hs[1], hs[0]];
    }
  }

  lemma LeftBlank(ls: nat, body: Stmt, g: Ctx, head: Ls)
    requires !g.pend
    ensures var x := Gen(ls, body, g, head);
            Gen(ls, Maybe(false, body), g, head).code == Blank(|x.code + MaybeWait(ls, g.tr, x).code|, g.tr.loads)
  {
    hide MaybeWait, Blank;
    assert g.(pend := false) == g;
    assert Gen(ls, Maybe(false, body), g, head) == OutMaybe(ls, false, g.tr, Gen(ls, body, g, head));
  }
}
