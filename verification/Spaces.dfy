/** Whether a recording gets the memory it needs: what each command asks the chunks for. */
module Spaces {
  import opened Isa
  import opened Structured
  import opened Sequences
  import opened Chunks

  /** `n` instructions, one by one. */
  function Singly(s: Space, n: nat): Space {
    if n == 0 then s else Taken(Singly(s, n - 1), 1)
  }

  /** A block is written in one piece; outside any block every instruction is a piece of its own. */
  function AfterOne(s: Space, c: Command, n: nat): Space {
    if c.Outside? then Singly(s, n) else Taken(s, n)
  }

  function CodeSize(ls: nat, c: Command, g: Ctx): nat {
    |Gen(ls, StmtOf(c), g, IDLE).code|
  }

  /** The space behind the commands from `lo` up to `hi` of `cs`, recorded in the context `g`. */
  function AfterAll(s: Space, ls: nat, cs: seq<Command>, lo: nat, hi: nat, g: Ctx): Space
    requires hi <= |cs|
    decreases hi
  {
    if hi <= lo then s
    else
      var n := CodeSize(ls, cs[hi - 1], CtxAfter(ls, cs[..hi - 1], g));
      AfterOne(AfterAll(s, ls, cs, lo, hi - 1, g), cs[hi - 1], n)
  }

  lemma {:induction false} AfterJoined(s: Space, ls: nat, cs: seq<Command>, lo: nat, mid: nat, hi: nat, g: Ctx)
    requires lo <= mid <= hi <= |cs|
    ensures AfterAll(AfterAll(s, ls, cs, lo, mid, g), ls, cs, mid, hi, g) == AfterAll(s, ls, cs, lo, hi, g)
    decreases hi
  {
    hide AfterOne, CodeSize, CtxAfter;
    if mid < hi { AfterJoined(s, ls, cs, lo, mid, hi - 1, g); }
  }

  lemma {:induction false} SinglyFull(n: nat)
    ensures Singly(Full, n) == Full
  {
    if n > 0 { SinglyFull(n - 1); }
  }

  /** An instruction, or a WAIT and the instruction. */
  lemma OneOrTwo(s: Space)
    ensures Singly(s, 1) == Taken(s, 1) && Singly(s, 2) == Taken(Taken(s, 1), 1)
    ensures Taken(Full, 1) == Full
  {
    hide Taken;
    assert Singly(s, 1) == Taken(Singly(s, 0), 1) == Taken(s, 1);
    FullStays(1, false);
  }

  /** Once the memory has run out the rest of the commands changes nothing. */
  lemma {:induction false} AfterFull(ls: nat, cs: seq<Command>, lo: nat, hi: nat, g: Ctx)
    requires lo <= hi <= |cs|
    ensures AfterAll(Full, ls, cs, lo, hi, g) == Full
    decreases hi
  {
    hide CodeSize, CtxAfter;
    if lo < hi {
      AfterFull(ls, cs, lo, hi - 1, g);
      SinglyFull(CodeSize(ls, cs[hi - 1], CtxAfter(ls, cs[..hi - 1], g)));
    }
  }

  // ----- Enough memory ---------------------------------------------------------------------------------

  /** The pieces the commands are written in. */
  function Pieces(ls: nat, cs: seq<Command>, lo: nat, hi: nat, g: Ctx): nat
    requires hi <= |cs|
    decreases hi
  {
    if hi <= lo then 0
    else
      var n := CodeSize(ls, cs[hi - 1], CtxAfter(ls, cs[..hi - 1], g));
      Pieces(ls, cs, lo, hi - 1, g) + if cs[hi - 1].Outside? || n == 0 then n else 1
  }

  /** All their instructions. */
  function Total(ls: nat, cs: seq<Command>, lo: nat, hi: nat, g: Ctx): nat
    requires hi <= |cs|
    decreases hi
  {
    if hi <= lo then 0
    else Total(ls, cs, lo, hi - 1, g) + CodeSize(ls, cs[hi - 1], CtxAfter(ls, cs[..hi - 1], g))
  }

  lemma {:induction false} SinglyTakes(s: Space, n: nat)
    requires s.Space? && |s.supply| >= n
    ensures Singly(s, n).Space? && |Singly(s, n).supply| >= |s.supply| - n
  {
    if n > 0 { SinglyTakes(s, n - 1); }
  }

  /** A piece takes one buffer at most, so that a recording with a buffer for every piece cannot run out. */
  lemma {:induction false} Enough(s: Space, ls: nat, cs: seq<Command>, lo: nat, hi: nat, g: Ctx)
    requires lo <= hi <= |cs| && s.Space? && |s.supply| >= Pieces(ls, cs, lo, hi, g)
    ensures var r := AfterAll(s, ls, cs, lo, hi, g); r.Space? && |r.supply| >= |s.supply| - Pieces(ls, cs, lo, hi, g)
    decreases hi
  {
    hide CodeSize, CtxAfter;
    if lo < hi {
      Enough(s, ls, cs, lo, hi - 1, g);
      var n := CodeSize(ls, cs[hi - 1], CtxAfter(ls, cs[..hi - 1], g));
      if cs[hi - 1].Outside? { SinglyTakes(AfterAll(s, ls, cs, lo, hi - 1, g), n); }
    }
  }

  lemma {:induction false} SinglyIn(s: Space, n: nat)
    requires s.Full? || s.supply == []
    ensures Singly(s, n) == Taken(s, n)
  {
    if n > 0 { SinglyIn(s, n - 1); }
  }

  /** Where there is no other buffer, what is recorded fits if and only if all of it together fits the one there is. */
  lemma {:induction false} OneBuffer(s: Space, ls: nat, cs: seq<Command>, lo: nat, hi: nat, g: Ctx)
    requires lo <= hi <= |cs| && s.Space? && s.supply == []
    ensures AfterAll(s, ls, cs, lo, hi, g) == Taken(s, Total(ls, cs, lo, hi, g))
    ensures var n := Total(ls, cs, lo, hi, g);
            AfterAll(s, ls, cs, lo, hi, g).Space? <==> n == 0 || n <= s.free
    decreases hi
  {
    hide CodeSize, CtxAfter;
    if lo < hi {
      OneBuffer(s, ls, cs, lo, hi - 1, g);
      SinglyIn(AfterAll(s, ls, cs, lo, hi - 1, g), CodeSize(ls, cs[hi - 1], CtxAfter(ls, cs[..hi - 1], g)));
    }
  }

  /** A recording runs out of memory only at a piece that did not fit the current chunk when all buffers had been
      used. */
  lemma {:induction false} RunsOut(s: Space, ls: nat, cs: seq<Command>, lo: nat, hi: nat, g: Ctx)
    returns (k: nat, j: nat, t: Space)
    requires lo <= hi <= |cs| && s.Space? && AfterAll(s, ls, cs, lo, hi, g).Full?
    ensures lo <= k < hi && t.Space? && t.supply == []
    ensures var n := CodeSize(ls, cs[k], CtxAfter(ls, cs[..k], g));
            var before := AfterAll(s, ls, cs, lo, k, g);
            if cs[k].Outside? then j < n && t == Singly(before, j) && t.free < 1 else t == before && t.free < n
    decreases hi
  {
    hide CodeSize, CtxAfter;
    var before := AfterAll(s, ls, cs, lo, hi - 1, g);
    if before.Full? {
      k, j, t := RunsOut(s, ls, cs, lo, hi - 1, g);
    } else {
      k, j, t := hi - 1, 0, before;
      if cs[k].Outside? {
        j := SinglyRunsOut(before, CodeSize(ls, cs[k], CtxAfter(ls, cs[..k], g)));
        t := Singly(before, j);
      }
    }
  }

  lemma {:induction false} SinglyRunsOut(s: Space, n: nat) returns (j: nat)
    requires s.Space? && Singly(s, n).Full?
    ensures j < n && Singly(s, j).Space? && Singly(s, j).supply == [] && Singly(s, j).free < 1
  {
    if Singly(s, n - 1).Full? {
      j := SinglyRunsOut(s, n - 1);
    } else {
      j := n - 1;
    }
  }
}
