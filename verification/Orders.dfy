/** The orders in which maybe blocks can be patched, and what each leads to. */
module Orders {
  import opened Isa
  import opened Handles

  /** Code with blocks patched in. */
  function Apply(hs: seq<Handle>, code: seq<Instr>): (r: seq<Instr>)
    ensures |r| == |code|
  {
    seq(|code|, i requires 0 <= i < |code| => Filling(hs, code[i], i))
  }

  // ----- What is patched in ------------------------------------------------------------------------------

  predicate Overlap(a: Handle, b: Handle) {
    a.at < b.at + |b.instrs| && b.at < a.at + |a.instrs|
  }

  /** Blocks between `lo` and `hi`, of which two that overlap are one inside the other, the outer one first. */
  ghost predicate Nested(hs: seq<Handle>, lo: int, hi: int) {
    && Within(hs, lo, hi)
    && forall j, k :: 0 <= j < k < |hs| && Overlap(hs[j], hs[k]) ==>
         hs[j].at <= hs[k].at && hs[k].at + |hs[k].instrs| <= hs[j].at + |hs[j].instrs|
  }

  /** From block `from` on, none at `pos` is left out. */
  ghost predicate Shown(hs: seq<Handle>, t: seq<bool>, from: nat, pos: int)
    requires |t| == |hs|
  {
    forall k :: from <= k < |hs| && Covers(hs[k], pos) ==> t[k]
  }

  /** One place of code whose blocks are patched in as `t` says: `full` is there when all are, and a block keeps
      what is there when it is patched in with all around it, but those inside it are as `t` says. */
  ghost predicate Layer(hs: seq<Handle>, t: seq<bool>, pos: int, i: Instr, full: Instr)
    requires |t| == |hs|
  {
    && i == (if Shown(hs, t, 0, pos) then full else Nop)
    && forall j :: 0 <= j < |hs| && Covers(hs[j], pos) ==>
         hs[j].instrs[pos - hs[j].at] == if Shown(hs, t, j + 1, pos) then full else Nop
  }

  // ----- In what order -----------------------------------------------------------------------------------

  /** The blocks in the order `order` says. */
  function Ordered(hs: seq<Handle>, order: seq<nat>): (r: seq<Handle>)
    requires InRange(hs, order)
    ensures |r| == |order|
  {
    seq(|order|, k requires 0 <= k < |order| => hs[order[k]])
  }

  predicate InRange(hs: seq<Handle>, order: seq<nat>) {
    forall k :: 0 <= k < |order| ==> order[k] < |hs|
  }

  /** Block `k` is block `j` or inside it. */
  predicate Around(hs: seq<Handle>, j: nat, k: nat)
    requires j < |hs| && k < |hs|
  {
    j == k || (j < k && Overlap(hs[j], hs[k]))
  }

  /** The last block around `k` to be patched, if there is one. */
  function LastAround(hs: seq<Handle>, order: seq<nat>, k: nat): (r: int)
    requires k < |hs| && InRange(hs, order)
    ensures -1 <= r <= k
    ensures r >= 0 ==> Around(hs, r, k) && r in order
    decreases |order|
  {
    if order == [] then -1
    else if Around(hs, order[|order| - 1], k) then order[|order| - 1]
    else LastAround(hs, order[..|order| - 1], k)
  }

  /** From block `from` on, none around `k` is left out. */
  ghost predicate Open(hs: seq<Handle>, t: seq<bool>, from: nat, k: nat)
    requires |t| == |hs| && k < |hs|
  {
    forall j :: from <= j <= k && Around(hs, j, k) ==> t[j]
  }

  /** Whether the instructions of block `k` are there once blocks have been patched in this order: behind the
      last patch around it, which puts back what it was closed with, only what was patched in before that
      counts. */
  ghost predicate Stands(hs: seq<Handle>, t: seq<bool>, order: seq<nat>, k: nat)
    requires |t| == |hs| && k < |hs| && InRange(hs, order)
  {
    Open(hs, t, LastAround(hs, order, k) + 1, k)
  }

  /** Block `k` has an instruction that is in none of the blocks inside it, and is no NOP. */
  ghost predicate HasOwn(hs: seq<Handle>, k: nat, full: seq<Instr>)
    requires k < |hs|
  {
    exists pos :: 0 <= pos < |full| && Innermost(hs, k, pos) && full[pos] != Nop
  }

  predicate Innermost(hs: seq<Handle>, k: nat, pos: int)
    requires k < |hs|
  {
    Covers(hs[k], pos) && forall j :: k < j < |hs| ==> !Covers(hs[j], pos)
  }

  /** Patched in this order, exactly the blocks are there that are if all of `want` and no others are filled in.
      Blocks with nothing of their own do not matter. */
  ghost predicate Meets(hs: seq<Handle>, t: seq<bool>, order: seq<nat>, want: seq<bool>, full: seq<Instr>)
    requires |t| == |hs| == |want| && InRange(hs, order)
  {
    forall k :: 0 <= k < |hs| && HasOwn(hs, k, full) ==> (Stands(hs, t, order, k) <==> Open(hs, want, 0, k))
  }

  /** The blocks around the innermost one at a place are those that are at the place. */
  lemma AroundPlace(hs: seq<Handle>, lo: int, hi: int, k: nat, pos: int, j: nat)
    requires Nested(hs, lo, hi) && k < |hs| && Innermost(hs, k, pos) && j < |hs|
    ensures Covers(hs[j], pos) <==> Around(hs, j, k)
  {
  }

  lemma ShownIsOpen(hs: seq<Handle>, lo: int, hi: int, t: seq<bool>, from: nat, k: nat, pos: int)
    requires Nested(hs, lo, hi) && |t| == |hs| && k < |hs| && Innermost(hs, k, pos)
    ensures Shown(hs, t, from, pos) <==> Open(hs, t, from, k)
  {
    forall j | from <= j < |hs| ensures Covers(hs[j], pos) <==> Around(hs, j, k) {
      AroundPlace(hs, lo, hi, k, pos, j);
    }
  }

  /** What is at a place in the end. */
  lemma {:induction false} FillingIs(hs: seq<Handle>, lo: int, hi: int, t: seq<bool>, order: seq<nat>, k: nat,
                                     pos: int, i: Instr, full: Instr)
    requires Nested(hs, lo, hi) && |t| == |hs| && InRange(hs, order) && k < |hs| && Innermost(hs, k, pos)
    requires Layer(hs, t, pos, i, full)
    ensures Filling(Ordered(hs, order), i, pos) == if Stands(hs, t, order, k) then full else Nop
    decreases |order|
  {
    hide Nested, Shown, Open, Innermost, Around;
    if order == [] {
      ShownIsOpen(hs, lo, hi, t, 0, k, pos);
    } else {
      var front, j := order[..|order| - 1], order[|order| - 1];
      assert Ordered(hs, order) == Ordered(hs, front) + [hs[j]];
      FillingConcat(Ordered(hs, front), [hs[j]], i, pos);
      AroundPlace(hs, lo, hi, k, pos, j);
      if Around(hs, j, k) {
        ShownIsOpen(hs, lo, hi, t, j + 1, k, pos);
      } else {
        FillingIs(hs, lo, hi, t, front, k, pos, i, full);
      }
    }
  }

  /** The last block that covers a place decides. */
  lemma {:induction false} LastDecides(hs: seq<Handle>, j: nat, i: Instr, pos: int)
    requires j < |hs| && Covers(hs[j], pos) && forall k :: j < k < |hs| ==> !Covers(hs[k], pos)
    ensures Filling(hs, i, pos) == hs[j].instrs[pos - hs[j].at]
    decreases |hs|
  {
    var i' := if Covers(hs[0], pos) then hs[0].instrs[pos - hs[0].at] else i;
    if j == 0 {
      NothingDecides(hs[1..], i', pos);
    } else {
      LastDecides(hs[1..], j - 1, i', pos);
    }
  }

  lemma {:induction false} NothingDecides(hs: seq<Handle>, i: Instr, pos: int)
    requires forall k :: 0 <= k < |hs| ==> !Covers(hs[k], pos)
    ensures Filling(hs, i, pos) == i
    decreases |hs|
  {
    if hs != [] { NothingDecides(hs[1..], i, pos); }
  }

  lemma {:induction false} LastCover(hs: seq<Handle>, pos: int) returns (j: nat)
    requires exists k :: 0 <= k < |hs| && Covers(hs[k], pos)
    ensures j < |hs| && Covers(hs[j], pos) && forall k :: j < k < |hs| ==> !Covers(hs[k], pos)
    decreases |hs|
  {
    var n := |hs| - 1;
    if Covers(hs[n], pos) { return n; }
    var k :| 0 <= k < |hs| && Covers(hs[k], pos);
    assert Covers(hs[..n][k], pos);
    j := LastCover(hs[..n], pos);
    assert forall k :: 0 <= k < n ==> hs[..n][k] == hs[k];
  }

  /** Exactly when the order meets what is wanted, the code with the blocks patched in this order is the code
      with those wanted filled in. */
  lemma MeetsExactly(hs: seq<Handle>, t: seq<bool>, order: seq<nat>, want: seq<bool>, code: seq<Instr>,
                     full: seq<Instr>, wanted: seq<Instr>)
    requires |code| == |full| == |wanted| && Nested(hs, 0, |code|) && |t| == |hs| == |want| && InRange(hs, order)
    requires forall pos :: 0 <= pos < |code| ==> Layer(hs, t, pos, code[pos], full[pos])
    requires forall pos :: 0 <= pos < |code| ==>
               wanted[pos] == if Shown(hs, want, 0, pos) then full[pos] else Nop
    ensures Apply(Ordered(hs, order), code) == wanted <==> Meets(hs, t, order, want, full)
  {
    hide Nested, Shown, Open, Layer, Stands, Around, Filling;
    var r := Apply(Ordered(hs, order), code);
    forall pos, k | 0 <= pos < |code| && 0 <= k < |hs| && Innermost(hs, k, pos)
      ensures r[pos] == (if Stands(hs, t, order, k) then full[pos] else Nop)
      ensures wanted[pos] == (if Open(hs, want, 0, k) then full[pos] else Nop)
    {
      FillingIs(hs, 0, |code|, t, order, k, pos, code[pos], full[pos]);
      ShownIsOpen(hs, 0, |code|, want, 0, k, pos);
    }
    if Meets(hs, t, order, want, full) {
      forall pos | 0 <= pos < |code| ensures r[pos] == wanted[pos] {
        if exists j :: 0 <= j < |hs| && Covers(hs[j], pos) {
          var k := LastCover(hs, pos);
          assert Innermost(hs, k, pos);
          assert full[pos] != Nop ==> HasOwn(hs, k, full);
        } else {
          Uncovered(hs, t, order, want, pos, code[pos], full[pos]);
        }
      }
    }
    if r == wanted {
      forall k | 0 <= k < |hs| && HasOwn(hs, k, full) ensures Stands(hs, t, order, k) <==> Open(hs, want, 0, k) {
        var pos :| 0 <= pos < |full| && Innermost(hs, k, pos) && full[pos] != Nop;
      }
    }
  }

  lemma Uncovered(hs: seq<Handle>, t: seq<bool>, order: seq<nat>, want: seq<bool>, pos: int, i: Instr, full: Instr)
    requires |t| == |hs| == |want| && InRange(hs, order) && Layer(hs, t, pos, i, full)
    requires forall k :: 0 <= k < |hs| ==> !Covers(hs[k], pos)
    ensures Filling(Ordered(hs, order), i, pos) == full && Shown(hs, want, 0, pos)
  {
    NothingDecides(Ordered(hs, order), i, pos);
  }

  /** Whatever the order, nothing is there but what belongs there, or a NOP. */
  lemma Mixed(hs: seq<Handle>, t: seq<bool>, order: seq<nat>, code: seq<Instr>, full: seq<Instr>)
    requires |code| == |full| && Nested(hs, 0, |code|) && |t| == |hs| && InRange(hs, order)
    requires forall pos :: 0 <= pos < |code| ==> Layer(hs, t, pos, code[pos], full[pos])
    ensures var r := Apply(Ordered(hs, order), code);
            forall pos :: 0 <= pos < |r| ==> r[pos] == full[pos] || r[pos] == Nop
  {
    hide Nested, Shown, Open, Layer, Stands, Around, Filling;
    var r := Apply(Ordered(hs, order), code);
    forall pos | 0 <= pos < |r| ensures r[pos] == full[pos] || r[pos] == Nop {
      if exists j :: 0 <= j < |hs| && Covers(hs[j], pos) {
        var k := LastCover(hs, pos);
        FillingIs(hs, 0, |code|, t, order, k, pos, code[pos], full[pos]);
      } else {
        Uncovered(hs, t, order, t, pos, code[pos], full[pos]);
      }
    }
  }

  // ----- Orders that do and orders that do not -------------------------------------------------------------

  /** When all blocks were left out at first, a block is there in the end exactly when it is patched behind the
      last patch of each block it is in. */
  lemma {:induction false} StandsExactly(hs: seq<Handle>, t: seq<bool>, order: seq<nat>, k: nat)
    requires |t| == |hs| && k < |hs| && InRange(hs, order) && forall j :: 0 <= j < |t| ==> !t[j]
    ensures Stands(hs, t, order, k)
       <==> exists p :: 0 <= p < |order| && order[p] == k && NoneAfter(hs, order, p, k)
    decreases |order|
  {
    hide Overlap;
    assert Around(hs, k, k);
    if order != [] {
      var n := |order| - 1;
      var front, j := order[..n], order[n];
      if Around(hs, j, k) {
        assert j == k ==> NoneAfter(hs, order, n, k);
      } else {
        StandsExactly(hs, t, front, k);
        assert Stands(hs, t, order, k) <==> Stands(hs, t, front, k);
        forall p | 0 <= p < n ensures NoneAfter(hs, front, p, k) <==> NoneAfter(hs, order, p, k) {
          assert forall q :: p < q < n ==> front[q] == order[q];
          if NoneAfter(hs, order, p, k) {
            forall q | p < q < n ensures !Around(hs, front[q], k) { assert front[q] == order[q]; }
          }
        }
        assert forall p :: 0 <= p < n ==> front[p] == order[p];
        assert order[n] != k;
      }
    }
  }

  /** Behind step `p`, no block around `k` is patched. */
  ghost predicate NoneAfter(hs: seq<Handle>, order: seq<nat>, p: nat, k: nat)
    requires k < |hs| && InRange(hs, order)
  {
    forall q :: p < q < |order| ==> !Around(hs, order[q], k)
  }

  /** A block inside another is patched after it. */
  ghost predicate OuterFirst(hs: seq<Handle>, order: seq<nat>) {
    && InRange(hs, order)
    && forall k, l :: 0 <= k < l < |order| && Overlap(hs[order[k]], hs[order[l]]) ==> order[k] <= order[l]
  }

  /** Any choice of blocks, as long as no block is chosen without those around it, can be patched in this way. */
  lemma OuterFirstMeets(hs: seq<Handle>, lo: int, hi: int, t: seq<bool>, order: seq<nat>, want: seq<bool>,
                        full: seq<Instr>)
    requires Nested(hs, lo, hi) && |t| == |hs| == |want| && OuterFirst(hs, order)
    requires forall k :: 0 <= k < |hs| ==> (want[k] <==> t[k] || k in order)
    requires forall j, k :: 0 <= j < k < |hs| && Overlap(hs[j], hs[k]) && want[k] ==> want[j]
    ensures Meets(hs, t, order, want, full)
  {
    forall k | 0 <= k < |hs| && HasOwn(hs, k, full) ensures Stands(hs, t, order, k) <==> Open(hs, want, 0, k) {
      var pos :| 0 <= pos < |full| && Innermost(hs, k, pos) && full[pos] != Nop;
      assert Around(hs, k, k);
      var last := LastAround(hs, order, k);
      assert !want[k] ==> last != k;
      forall i | last < i <= k && Around(hs, i, k) && i in order ensures false {
        AroundPlace(hs, lo, hi, k, pos, i);
        LastIsLast(hs, order, k, i);
        AroundPlace(hs, lo, hi, k, pos, last);
        assert Overlap(hs[i], hs[last]);
      }
    }
  }

  /** What is patched around `k` is patched no later than the last. */
  lemma {:induction false} LastIsLast(hs: seq<Handle>, order: seq<nat>, k: nat, i: nat)
    requires k < |hs| && InRange(hs, order) && i in order && Around(hs, i, k)
    ensures var last := LastAround(hs, order, k);
            last >= 0 && (last == i || exists p, q :: 0 <= p < q < |order| && order[p] == i && order[q] == last)
    decreases |order|
  {
    hide Around;
    var n := |order| - 1;
    var front := order[..n];
    if Around(hs, order[n], k) {
      var p :| 0 <= p < |order| && order[p] == i;
    } else {
      assert i in front;
      LastIsLast(hs, front, k, i);
      var last := LastAround(hs, front, k);
      if last != i {
        var p, q :| 0 <= p < q < n && front[p] == i && front[q] == last;
        assert order[p] == i && order[q] == last;
      }
    }
  }

  /** Patched from the inside out, an enclosing block puts back what it was closed with. */
  lemma OuterLast(hs: seq<Handle>, outer: Handle, i: Instr, pos: int)
    requires Covers(outer, pos)
    ensures Filling(hs + [outer], i, pos) == outer.instrs[pos - outer.at]
  {
    LastDecides(hs + [outer], |hs|, i, pos);
  }
}
