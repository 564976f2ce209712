/** Which maybe blocks of a program are patched in, listed as `Handles.Kept` lists the blocks. */
module Choices {
  import opened Structured
  import opened Isa
  import opened Handles
  import Maybes
  import Tidy

  function Flags(s: Stmt): seq<bool> {
    match s
    case Seq(a, b) => Flags(b) + Flags(a)
    case If(_, _, t) => Flags(t)
    case IfElse(_, _, t, e) => Flags(e) + Flags(t)
    case While(_, _, body) => Flags(body)
    case Match(_, _, cs) => FlagsCases(cs)
    case Maybe(patched, body) => [patched] + Flags(body)
    case _ => []
  }

  function FlagsCases(cs: Cases): seq<bool> {
    match cs
    case NoCase => []
    case Default(body) => Flags(body)
    case Case(_, body, rest) => FlagsCases(rest) + Flags(body)
  }

  /** The program with exactly the blocks patched in that `t` says. */
  function With(s: Stmt, t: seq<bool>): (r: Stmt)
    requires |t| == |Flags(s)|
    decreases s
  {
    match s
    case Seq(a, b) => Seq(With(a, t[|Flags(b)|..]), With(b, t[..|Flags(b)|]))
    case If(c, v, x) => If(c, v, With(x, t))
    case IfElse(c, v, x, e) => IfElse(c, v, With(x, t[|Flags(e)|..]), With(e, t[..|Flags(e)|]))
    case While(c, v, body) => While(c, v, With(body, t))
    case Match(v, scratch, cs) => Match(v, scratch, WithCases(cs, t))
    case Maybe(_, body) => Maybe(t[0], With(body, t[1..]))
    case _ => s
  }

  function WithCases(cs: Cases, t: seq<bool>): Cases
    requires |t| == |FlagsCases(cs)|
    decreases cs
  {
    match cs
    case NoCase => NoCase
    case Default(body) => Default(With(body, t))
    case Case(id, body, rest) =>
      Case(id, With(body, t[|FlagsCases(rest)|..]), WithCases(rest, t[..|FlagsCases(rest)|]))
  }

  lemma {:induction false} WithIs(s: Stmt, t: seq<bool>)
    requires |t| == |Flags(s)|
    ensures Flags(With(s, t)) == t && Maybes.Filled(With(s, t)) == Maybes.Filled(s)
    decreases s
  {
    match s
    case Seq(a, b) => WithIs(a, t[|Flags(b)|..]); WithIs(b, t[..|Flags(b)|]);
    case If(_, _, x) => WithIs(x, t);
    case IfElse(_, _, x, e) => WithIs(x, t[|Flags(e)|..]); WithIs(e, t[..|Flags(e)|]);
    case While(_, _, body) => WithIs(body, t);
    case Match(_, _, cs) => WithCasesIs(cs, t);
    case Maybe(_, body) => WithIs(body, t[1..]);
    case _ =>
  }

  lemma {:induction false} WithCasesIs(cs: Cases, t: seq<bool>)
    requires |t| == |FlagsCases(cs)|
    ensures FlagsCases(WithCases(cs, t)) == t && Maybes.FilledCases(WithCases(cs, t)) == Maybes.FilledCases(cs)
    decreases cs
  {
    match cs
    case NoCase =>
    case Default(body) => WithIs(body, t);
    case Case(_, body, rest) =>
      WithIs(body, t[|FlagsCases(rest)|..]);
      WithCasesIs(rest, t[..|FlagsCases(rest)|]);
  }

  lemma {:induction false} WithFormed(s: Stmt, t: seq<bool>, brk: bool, cont: bool)
    requires |t| == |Flags(s)| && WellFormed(s, brk, cont)
    ensures WellFormed(With(s, t), brk, cont)
    decreases s
  {
    match s
    case Seq(a, b) => WithFormed(a, t[|Flags(b)|..], brk, cont); WithFormed(b, t[..|Flags(b)|], brk, cont);
    case If(_, _, x) => WithFormed(x, t, brk, cont);
    case IfElse(_, _, x, e) => WithFormed(x, t[|Flags(e)|..], brk, cont); WithFormed(e, t[..|Flags(e)|], brk, cont);
    case While(_, _, body) => WithFormed(body, t, true, true);
    case Match(_, _, cs) => WithCasesFormed(cs, t, brk, cont);
    case Maybe(_, body) => WithFormed(body, t[1..], false, cont);
    case _ =>
  }

  lemma {:induction false} WithCasesFormed(cs: Cases, t: seq<bool>, brk: bool, cont: bool)
    requires |t| == |FlagsCases(cs)| && WellFormedCases(cs, brk, cont)
    ensures WellFormedCases(WithCases(cs, t), brk, cont)
    decreases cs
  {
    match cs
    case NoCase =>
    case Default(body) => WithFormed(body, t, brk, cont);
    case Case(_, body, rest) =>
      WithFormed(body, t[|FlagsCases(rest)|..], brk, cont);
      WithCasesFormed(rest, t[..|FlagsCases(rest)|], brk, cont);
  }

  lemma {:induction false} WithBelow(s: Stmt, t: seq<bool>, top: Reg)
    requires |t| == |Flags(s)| && Tidy.UsesBelow(s, top)
    ensures Tidy.UsesBelow(With(s, t), top)
    decreases s
  {
    match s
    case Seq(a, b) => WithBelow(a, t[|Flags(b)|..], top); WithBelow(b, t[..|Flags(b)|], top);
    case If(_, _, x) => WithBelow(x, t, top);
    case IfElse(_, _, x, e) => WithBelow(x, t[|Flags(e)|..], top); WithBelow(e, t[..|Flags(e)|], top);
    case While(_, _, body) => WithBelow(body, t, top);
    case Match(_, _, cs) => WithCasesBelow(cs, t, top);
    case Maybe(_, body) => WithBelow(body, t[1..], top);
    case _ =>
  }

  lemma {:induction false} WithCasesBelow(cs: Cases, t: seq<bool>, top: Reg)
    requires |t| == |FlagsCases(cs)| && Tidy.CasesBelow(cs, top)
    ensures Tidy.CasesBelow(WithCases(cs, t), top)
    decreases cs
  {
    match cs
    case NoCase =>
    case Default(body) => WithBelow(body, t, top);
    case Case(_, body, rest) =>
      WithBelow(body, t[|FlagsCases(rest)|..], top);
      WithCasesBelow(rest, t[..|FlagsCases(rest)|], top);
  }

  /** What is patched in has no influence on anything else that is emitted. */
  lemma WithSize(ls: nat, s: Stmt, t: seq<bool>, g: Ctx, head: Ls)
    requires |t| == |Flags(s)|
    ensures var x, y := Gen(ls, s, g, head), Gen(ls, With(s, t), g, head);
            |x.code| == |y.code| && x.ctx == y.ctx && x.div == y.div
  {
    WithIs(s, t);
    Maybes.FilledSize(ls, s, g, head);
    Maybes.FilledSize(ls, With(s, t), g, head);
  }
}
