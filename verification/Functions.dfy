/** Functions in a command stream: the registers a function writes are saved in front of it and restored behind it. */
module Functions {
  import opened Isa
  import opened Structured
  import Arith
  import Lists
  import opened Bits

  const SAVE_RESTORE_MAX_OPS: nat := 16

  // ----- Grouping the registers -----------------------------------------------------------------------

  /** The registers set in `dirty`, below `nregs`, in groups of up to 16 consecutive registers that one
      instruction can take: in order, without overlap, and nothing left out. */
  ghost predicate Groups(dirty: seq<bool>, nregs: nat, starts: seq<nat>, masks: seq<seq<bool>>) {
    && nregs <= |dirty| && |starts| == |masks|
    && (forall k :: 0 <= k < |starts| ==> IsGroup(dirty, nregs, starts[k], masks[k]))
    && (forall j, k :: 0 <= j < k < |starts| ==> starts[j] + |masks[j]| <= starts[k])
    && forall r :: 0 <= r < nregs && dirty[r] ==> Grouped(starts, masks, r)
  }

  ghost predicate Grouped(starts: seq<nat>, masks: seq<seq<bool>>, r: nat)
    requires |starts| == |masks|
  {
    exists k :: 0 <= k < |starts| && starts[k] <= r < starts[k] + |masks[k]|
  }

  predicate IsGroup(dirty: seq<bool>, nregs: nat, start: nat, mask: seq<bool>)
    requires nregs <= |dirty|
  {
    && 0 < |mask| <= 16 && start + |mask| <= nregs && mask == dirty[start..start + |mask|] && mask[0]
    && (|mask| < 16 ==> start + |mask| == nregs)
  }

  /** The registers below `pos` have been grouped; the last group ends at `last`. */
  ghost predicate Grouping(dirty: seq<bool>, nregs: nat, pos: nat, starts: seq<nat>, masks: seq<seq<bool>>, last: nat) {
    && |starts| == |masks| && pos <= nregs <= |dirty| && last <= nregs
    && (forall k :: 0 <= k < |starts| ==> IsGroup(dirty, nregs, starts[k], masks[k]) && starts[k] + |masks[k]| <= last)
    && (forall j, k :: 0 <= j < k < |starts| ==> starts[j] + |masks[j]| <= starts[k])
    && (forall r :: 0 <= r < pos && dirty[r] ==> Grouped(starts, masks, r))
    && (starts != [] ==> starts[|starts| - 1] < pos && last == starts[|starts| - 1] + |masks[|masks| - 1]|)
    && (starts == [] ==> last == 0)
    && (last >= 16 * |starts| || (last == nregs && 16 * |starts| <= last + 15))
  }

  lemma GroupAdded(dirty: seq<bool>, nregs: nat, pos: nat, starts: seq<nat>, masks: seq<seq<bool>>, last: nat)
    requires Grouping(dirty, nregs, pos, starts, masks, last) && pos < nregs && dirty[pos] && last <= pos
    ensures var range := if nregs - pos < 16 then nregs - pos else 16;
            Grouping(dirty, nregs, pos + 1, starts + [pos], masks + [dirty[pos..pos + range]], pos + range)
  {
    hide IsGroup, Grouped;
    var range := if nregs - pos < 16 then nregs - pos else 16;
    var mask := dirty[pos..pos + range];
    OneGroup(dirty, nregs, pos, range);
    forall r | 0 <= r < pos + 1 && dirty[r] ensures Grouped(starts + [pos], masks + [mask], r) {
      GroupedStill(starts, masks, pos, mask, r);
    }
  }

  lemma OneGroup(dirty: seq<bool>, nregs: nat, pos: nat, range: nat)
    requires pos < nregs <= |dirty| && dirty[pos] && range == if nregs - pos < 16 then nregs - pos else 16
    ensures |dirty[pos..pos + range]| == range && IsGroup(dirty, nregs, pos, dirty[pos..pos + range])
  {
  }

  lemma GroupedStill(starts: seq<nat>, masks: seq<seq<bool>>, pos: nat, mask: seq<bool>, r: nat)
    requires |starts| == |masks| && mask != []
    ensures Grouped(starts, masks, r) || r == pos ==> Grouped(starts + [pos], masks + [mask], r)
  {
    var ss, ms := starts + [pos], masks + [mask];
    if Grouped(starts, masks, r) {
      var k :| 0 <= k < |starts| && starts[k] <= r < starts[k] + |masks[k]|;
      assert ss[k] == starts[k] && ms[k] == masks[k];
    } else if r == pos {
      assert ss[|starts|] == pos && ms[|starts|] == mask;
    }
  }

  lemma GroupPassed(dirty: seq<bool>, nregs: nat, pos: nat, starts: seq<nat>, masks: seq<seq<bool>>, last: nat)
    requires Grouping(dirty, nregs, pos, starts, masks, last) && pos < nregs && (!dirty[pos] || pos < last)
    ensures Grouping(dirty, nregs, pos + 1, starts, masks, last)
  {
    if dirty[pos] {
      var k := |starts| - 1;
      assert starts[k] <= pos < starts[k] + |masks[k]|;
    }
  }

  /** At most SAVE_RESTORE_MAX_OPS groups: the arrays of the builder have room for them. */
  method Group(dirty: seq<bool>, nregs: nat) returns (starts: seq<nat>, masks: seq<seq<bool>>)
    requires nregs <= |dirty| == 256
    ensures Groups(dirty, nregs, starts, masks) && |starts| <= SAVE_RESTORE_MAX_OPS
  {
    hide IsGroup, Grouped;
    starts, masks := [], [];
    var last: nat := 0;
    for pos := 0 to nregs
      invariant Grouping(dirty, nregs, pos, starts, masks, last)
    {
      if dirty[pos] && !(pos < last) {
        GroupAdded(dirty, nregs, pos, starts, masks, last);
        var range := if nregs - pos < 16 then nregs - pos else 16;
        starts := starts + [pos];
        masks := masks + [dirty[pos..pos + range]];
        last := pos + range;
      } else {
        GroupPassed(dirty, nregs, pos, starts, masks, last);
      }
    }
  }

  /** Where group `k` goes in the dump area: behind the registers of the groups before it. */
  function Offset(masks: seq<seq<bool>>, k: nat): nat
    requires k <= |masks|
  {
    if k == 0 then 0 else Offset(masks, k - 1) + 4 * Count(masks[k - 1])
  }

  /** The end of the registers in the first `k` groups. */
  function Reach(starts: seq<nat>, masks: seq<seq<bool>>, k: nat): nat
    requires k <= |starts| == |masks|
  {
    if k == 0 then 0 else starts[k - 1] + |masks[k - 1]|
  }

  /** Nothing is dirty between two groups. */
  lemma Gap(dirty: seq<bool>, nregs: nat, starts: seq<nat>, masks: seq<seq<bool>>, k: nat)
    requires Groups(dirty, nregs, starts, masks) && k <= |starts|
    ensures var next := if k < |starts| then starts[k] else nregs;
            Reach(starts, masks, k) <= next <= nregs && forall r :: Reach(starts, masks, k) <= r < next ==> !dirty[r]
  {
    var next := if k < |starts| then starts[k] else nregs;
    if k > 0 && k < |starts| { assert starts[k - 1] + |masks[k - 1]| <= starts[k]; }
    if k < |starts| { assert IsGroup(dirty, nregs, starts[k], masks[k]); }
    if k > 0 { assert IsGroup(dirty, nregs, starts[k - 1], masks[k - 1]); }
    assert forall j :: 0 <= j < |starts| ==> if j < k then starts[j] + |masks[j]| <= Reach(starts, masks, k)
        else next <= starts[j];
    assert forall r :: Reach(starts, masks, k) <= r < next ==> !Grouped(starts, masks, r);
  }

  /** The groups tile the dump area: each starts where the ranks of its registers say. */
  lemma {:induction false} OffsetIsRank(dirty: seq<bool>, nregs: nat, starts: seq<nat>, masks: seq<seq<bool>>, k: nat)
    requires Groups(dirty, nregs, starts, masks) && k <= |starts|
    ensures Reach(starts, masks, k) <= nregs && Offset(masks, k) == 4 * Rank(dirty, Reach(starts, masks, k))
    ensures k < |starts| ==> starts[k] <= nregs && Offset(masks, k) == 4 * Rank(dirty, starts[k])
    decreases k
  {
    Gap(dirty, nregs, starts, masks, k);
    if k > 0 {
      OffsetIsRank(dirty, nregs, starts, masks, k - 1);
      assert IsGroup(dirty, nregs, starts[k - 1], masks[k - 1]);
      CountSlices(dirty, starts[k - 1], Reach(starts, masks, k));
    }
    if k < |starts| { RankGrows(dirty, Reach(starts, masks, k), starts[k]); }
  }

  /** The dump size counts every dirty bit. The groups take all of it, unless a register of the builder's
      own, which is not saved, is dirty as well. */
  lemma TilesDump(dirty: seq<bool>, nregs: nat, starts: seq<nat>, masks: seq<seq<bool>>)
    requires Groups(dirty, nregs, starts, masks)
    ensures Offset(masks, |masks|) == 4 * Rank(dirty, nregs) <= 4 * Count(dirty)
    ensures Offset(masks, |masks|) == 4 * Count(dirty) <==> forall r :: nregs <= r < |dirty| ==> !dirty[r]
  {
    hide Rank, Count, Offset;
    Gap(dirty, nregs, starts, masks, |masks|);
    OffsetIsRank(dirty, nregs, starts, masks, |masks|);
    RankGrows(dirty, Reach(starts, masks, |masks|), nregs);
    RankIsCount(dirty);
    RankStays(dirty, nregs);
  }

  lemma RankIsCount(dirty: seq<bool>)
    ensures Rank(dirty, |dirty|) == Count(dirty)
  {
    assert dirty[..|dirty|] == dirty;
  }

  /** No more are counted exactly when there are no more. */
  lemma RankStays(dirty: seq<bool>, n: nat)
    requires n <= |dirty|
    ensures Rank(dirty, n) <= Rank(dirty, |dirty|)
    ensures Rank(dirty, n) == Rank(dirty, |dirty|) <==> forall r :: n <= r < |dirty| ==> !dirty[r]
  {
    hide Rank;
    RankGrows(dirty, n, |dirty|);
    if Rank(dirty, n) == Rank(dirty, |dirty|) {
      forall r | n <= r < |dirty| ensures !dirty[r] {
        RankNext(dirty, r);
        RankGrows(dirty, n, r);
        RankGrows(dirty, r + 1, |dirty|);
      }
    }
  }

  // ----- Saving and restoring -------------------------------------------------------------------------

  /** Where register `r` is saved in the dump area at `dump`. */
  function Slot(dirty: seq<bool>, dump: nat, r: nat): nat
    requires r <= |dirty|
  {
    dump + 4 * Rank(dirty, r)
  }

  /** The dirty registers from `base` to `end` are in their slots of `now`, and nothing else has changed. */
  ghost predicate Stored(dirty: seq<bool>, dump: nat, mem: map<nat, Word>, now: map<nat, Word>, regs: map<Reg, Word>,
                         base: nat, end: nat)
    requires base <= end <= |dirty|
  {
    && (forall r :: base <= r < end && dirty[r] ==> Cell(now, Slot(dirty, dump, r)) == Get(regs, r))
    && forall x: nat :: x < Slot(dirty, dump, base) || x >= Slot(dirty, dump, end) ==> Cell(now, x) == Cell(mem, x)
  }

  /** Storing one group puts each of its dirty registers in its slot. */
  lemma {:induction false} StoreGroup(mem: map<nat, Word>, regs: map<Reg, Word>, dirty: seq<bool>, dump: nat, base: nat,
                                      mask: seq<bool>)
    requires base + |mask| <= |dirty| && mask == dirty[base..base + |mask|]
    ensures Stored(dirty, dump, mem, StoreRow(mem, regs, base, mask, Slot(dirty, dump, base)), regs, base,
                   base + |mask|)
    decreases |mask|
  {
    hide Rank;
    if mask != [] {
      RankNext(dirty, base);
      assert mask[0] == dirty[base];
      var a := Slot(dirty, dump, base);
      var mem1 := if mask[0] then mem[a := Get(regs, base)] else mem;
      StoreGroup(mem1, regs, dirty, dump, base + 1, mask[1..]);
      RankGrows(dirty, base + 1, base + |mask|);
    }
  }

  lemma {:induction false} LoadGroup(regs: map<Reg, Word>, mem: map<nat, Word>, dirty: seq<bool>, dump: nat, base: nat,
                                     mask: seq<bool>)
    requires base + |mask| <= |dirty| && mask == dirty[base..base + |mask|]
    ensures var d := LoadRow(regs, mem, base, mask, Slot(dirty, dump, base));
            && (forall r :: base <= r < base + |mask| && dirty[r] ==> Get(d, r) == Cell(mem, Slot(dirty, dump, r)))
            && forall r: nat :: !(base <= r < base + |mask|) || !dirty[r] ==> Get(d, r) == Get(regs, r)
    decreases |mask|
  {
    hide Rank;
    if mask != [] {
      RankNext(dirty, base);
      assert mask[0] == dirty[base];
      var regs1 := if mask[0] then regs[base := Cell(mem, Slot(dirty, dump, base))] else regs;
      LoadGroup(regs1, mem, dirty, dump, base + 1, mask[1..]);
    }
  }

  function Saves(starts: seq<nat>, masks: seq<seq<bool>>, addr: Reg, n: nat): seq<Instr>
    requires n <= |starts| == |masks|
  {
    if n == 0 then []
    else Saves(starts, masks, addr, n - 1) + [Store(starts[n - 1], addr, masks[n - 1], Offset(masks, n - 1))]
  }

  function Restores(starts: seq<nat>, masks: seq<seq<bool>>, addr: Reg, n: nat): seq<Instr>
    requires n <= |starts| == |masks|
  {
    if n == 0 then []
    else Restores(starts, masks, addr, n - 1) + [Load(starts[n - 1], addr, masks[n - 1], Offset(masks, n - 1))]
  }

  lemma GroupAt(dirty: seq<bool>, nregs: nat, starts: seq<nat>, masks: seq<seq<bool>>, n: nat)
    requires Groups(dirty, nregs, starts, masks) && n < |starts|
    ensures nregs <= |dirty| && |starts| == |masks| && IsGroup(dirty, nregs, starts[n], masks[n])
  {
  }

  lemma AddressIs(regs: map<Reg, Word>, addr: Reg, dump: nat, offset: nat)
    requires Get64(regs, addr) == dump && dump + offset < W64
    ensures Address(regs, addr, offset) == dump + offset
  {
  }

  /** The address of group `n`. */
  lemma GroupAddress(dirty: seq<bool>, nregs: nat, starts: seq<nat>, masks: seq<seq<bool>>, n: nat, regs: map<Reg,
                     Word>, addr: Reg, dump: nat)
    requires Groups(dirty, nregs, starts, masks) && n < |starts| && Get64(regs, addr) == dump
    requires dump + 4 * Rank(dirty, nregs) < W64
    ensures |starts| == |masks| && starts[n] + |masks[n]| <= nregs
    ensures masks[n] == dirty[starts[n]..starts[n] + |masks[n]|]
    ensures Address(regs, addr, Offset(masks, n)) == Slot(dirty, dump, starts[n])
  {
    GroupAt(dirty, nregs, starts, masks, n);
    hide Rank, Groups, Address, Get64, Offset;
    OffsetIsRank(dirty, nregs, starts, masks, n);
    RankGrows(dirty, starts[n], nregs);
    AddressIs(regs, addr, dump, Offset(masks, n));
  }

  /** The dirty registers below `upto` are in their slots, and nothing else has been written. */
  ghost predicate Saved(dirty: seq<bool>, dump: nat, was: map<nat, Word>, mem: map<nat, Word>, regs: map<Reg, Word>,
                        upto: nat)
    requires upto <= |dirty|
  {
    && (forall r :: 0 <= r < upto && dirty[r] ==> Cell(mem, Slot(dirty, dump, r)) == Get(regs, r))
    && forall x: nat :: x < dump || x >= Slot(dirty, dump, upto) ==> Cell(mem, x) == Cell(was, x)
  }

  ghost predicate Clean(dirty: seq<bool>, lo: nat, hi: nat)
    requires hi <= |dirty|
  {
    forall r :: lo <= r < hi ==> !dirty[r]
  }

  lemma SavedJoined(dirty: seq<bool>, dump: nat, was: map<nat, Word>, mem: map<nat, Word>, now: map<nat, Word>,
                    regs: map<Reg, Word>, upto: nat, base: nat, end: nat)
    requires upto <= base <= end <= |dirty| && Saved(dirty, dump, was, mem, regs, upto) && Clean(dirty, upto, base)
    requires Stored(dirty, dump, mem, now, regs, base, end)
    ensures Saved(dirty, dump, was, now, regs, end)
  {
    hide Slot, Cell, Get;
    SlotGrows(dirty, dump, upto, base);
    SlotGrows(dirty, dump, base, end);
    forall r | 0 <= r < end && dirty[r] ensures Cell(now, Slot(dirty, dump, r)) == Get(regs, r) {
      if r < upto { SlotGrows(dirty, dump, r, base); }
    }
  }

  lemma SlotGrows(dirty: seq<bool>, dump: nat, i: nat, j: nat)
    requires i <= j <= |dirty|
    ensures dump <= Slot(dirty, dump, i) <= Slot(dirty, dump, j)
    ensures (i < j && dirty[i] ==> Slot(dirty, dump, i) < Slot(dirty, dump, j))
  {
    hide Rank;
    RankGrows(dirty, i, j);
    if i < j {
      RankNext(dirty, i);
      RankGrows(dirty, i + 1, j);
    }
  }

  lemma {:induction false} RunSaves(dirty: seq<bool>, nregs: nat, starts: seq<nat>, masks: seq<seq<bool>>, addr: Reg,
                                    n: nat, c: Core, dump: nat)
    requires |starts| == |masks| && nregs <= |dirty| && Groups(dirty, nregs, starts, masks) && n <= |starts|
    requires Get64(c.regs, addr) == dump && dump + 4 * Rank(dirty, nregs) < W64
    ensures Reach(starts, masks, n) <= nregs
    ensures var d := Arith.RunOps(Saves(starts, masks, addr, n), c);
            d.regs == c.regs && d.log == c.log && Saved(dirty, dump, c.mem, d.mem, c.regs, Reach(starts, masks, n))
    decreases n
  {
    hide Rank, Groups, StoreRow, Address, Offset, Saved, Slot, Arith.RunOps, Get64, ExecOp;
    Gap(dirty, nregs, starts, masks, n);
    if n > 0 {
      var k := n - 1;
      RunSaves(dirty, nregs, starts, masks, addr, k, c, dump);
      var c1 := Arith.RunOps(Saves(starts, masks, addr, k), c);
      Arith.RunMore(Saves(starts, masks, addr, k), Store(starts[k], addr, masks[k], Offset(masks, k)), c);
      SaveStep(dirty, nregs, starts, masks, addr, k, c, c1, dump);
    } else {
      NothingSaved(dirty, dump, c);
    }
  }

  /** One group more. */
  lemma SaveStep(dirty: seq<bool>, nregs: nat, starts: seq<nat>, masks: seq<seq<bool>>, addr: Reg, k: nat, c: Core,
                 c1: Core, dump: nat)
    requires |starts| == |masks| && nregs <= |dirty| && Groups(dirty, nregs, starts, masks) && k < |starts|
    requires Get64(c.regs, addr) == dump && dump + 4 * Rank(dirty, nregs) < W64 && Reach(starts, masks, k) <= nregs
    requires c1.regs == c.regs && c1.log == c.log && Saved(dirty, dump, c.mem, c1.mem, c.regs, Reach(starts, masks, k))
    ensures var d := ExecOp(Store(starts[k], addr, masks[k], Offset(masks, k)), c1);
            && Reach(starts, masks, k + 1) <= nregs && d.regs == c.regs && d.log == c.log
            && Saved(dirty, dump, c.mem, d.mem, c.regs, Reach(starts, masks, k + 1))
  {
    hide Rank, Groups, StoreRow, Address, Offset, Slot, Saved, Stored, Get64, ExecOp;
    Gap(dirty, nregs, starts, masks, k);
    Gap(dirty, nregs, starts, masks, k + 1);
    var base, end := starts[k], Reach(starts, masks, k + 1);
    assert Clean(dirty, Reach(starts, masks, k), base);
    GroupAddress(dirty, nregs, starts, masks, k, c1.regs, addr, dump);
    var at := Address(c1.regs, addr, Offset(masks, k));
    StoreIs(c1, base, addr, masks[k], Offset(masks, k));
    StoreGroup(c1.mem, c.regs, dirty, dump, base, masks[k]);
    SavedJoined(dirty, dump, c.mem, c1.mem, StoreRow(c1.mem, c.regs, base, masks[k], at), c.regs,
                Reach(starts, masks, k), base, end);
  }

  lemma StoreIs(c: Core, base: Reg, addr: Reg, mask: seq<bool>, offset: int)
    ensures ExecOp(Store(base, addr, mask, offset), c) == c.(mem := StoreRow(c.mem, c.regs, base, mask,
                Address(c.regs, addr, offset)))
  {
  }

  lemma NothingSaved(dirty: seq<bool>, dump: nat, c: Core)
    ensures Arith.RunOps([], c) == c && Saved(dirty, dump, c.mem, c.mem, c.regs, 0)
    ensures Restored(dirty, dump, c.mem, c.regs, c.regs, 0)
  {
  }

  /** The dirty registers below `upto` hold what their slots hold, the others what they held. */
  ghost predicate Restored(dirty: seq<bool>, dump: nat, mem: map<nat, Word>, was: map<Reg, Word>, regs: map<Reg, Word>,
                           upto: nat)
    requires upto <= |dirty|
  {
    && (forall r :: 0 <= r < upto && dirty[r] ==> Get(regs, r) == Cell(mem, Slot(dirty, dump, r)))
    && forall r: nat :: r >= upto || !dirty[r] ==> Get(regs, r) == Get(was, r)
  }

  lemma RestoredMore(dirty: seq<bool>, dump: nat, mem: map<nat, Word>, was: map<Reg, Word>, regs: map<Reg, Word>,
                     upto: nat, base: nat, mask: seq<bool>)
    requires upto <= base && base + |mask| <= |dirty| && mask == dirty[base..base + |mask|]
    requires Restored(dirty, dump, mem, was, regs, upto) && forall r :: upto <= r < base ==> !dirty[r]
    ensures Restored(dirty, dump, mem, was, LoadRow(regs, mem, base, mask, Slot(dirty, dump, base)), base + |mask|)
  {
    hide Slot, LoadRow;
    LoadGroup(regs, mem, dirty, dump, base, mask);
  }

  lemma LoadIs(c: Core, base: Reg, addr: Reg, mask: seq<bool>, offset: int)
    ensures ExecOp(Load(base, addr, mask, offset), c) == c.(regs := LoadRow(c.regs, c.mem, base, mask,
                Address(c.regs, addr, offset)))
  {
  }

  lemma AddrKept(dirty: seq<bool>, dump: nat, mem: map<nat, Word>, was: map<Reg, Word>, regs: map<Reg, Word>, upto: nat,
                 addr: Reg)
    requires upto <= |dirty| && upto <= addr && Restored(dirty, dump, mem, was, regs, upto)
    ensures Get64(regs, addr) == Get64(was, addr)
  {
  }

  lemma {:induction false} RunRestores(dirty: seq<bool>, nregs: nat, starts: seq<nat>, masks: seq<seq<bool>>, addr: Reg,
                                       n: nat, c: Core, dump: nat)
    requires |starts| == |masks| && nregs <= |dirty| && Groups(dirty, nregs, starts, masks) && n <= |starts|
    requires Get64(c.regs, addr) == dump && dump + 4 * Rank(dirty, nregs) < W64 && nregs <= addr
    ensures Reach(starts, masks, n) <= nregs
    ensures var d := Arith.RunOps(Restores(starts, masks, addr, n), c);
            d.mem == c.mem && d.log == c.log && Restored(dirty, dump, c.mem, c.regs, d.regs, Reach(starts, masks, n))
    decreases n
  {
    hide Rank, Groups, LoadRow, Address, Offset, Slot, Restored, Arith.RunOps, Get64, ExecOp;
    Gap(dirty, nregs, starts, masks, n);
    if n > 0 {
      var k := n - 1;
      RunRestores(dirty, nregs, starts, masks, addr, k, c, dump);
      var c1 := Arith.RunOps(Restores(starts, masks, addr, k), c);
      Arith.RunMore(Restores(starts, masks, addr, k), Load(starts[k], addr, masks[k], Offset(masks, k)), c);
      RestoreStep(dirty, nregs, starts, masks, addr, k, c, c1, dump);
    } else {
      NothingSaved(dirty, dump, c);
    }
  }

  /** One group more. */
  lemma RestoreStep(dirty: seq<bool>, nregs: nat, starts: seq<nat>, masks: seq<seq<bool>>, addr: Reg, k: nat, c: Core,
                    c1: Core, dump: nat)
    requires |starts| == |masks| && nregs <= |dirty| && Groups(dirty, nregs, starts, masks) && k < |starts|
    requires nregs <= addr
    requires Get64(c.regs, addr) == dump && dump + 4 * Rank(dirty, nregs) < W64 && Reach(starts, masks, k) <= nregs
    requires c1.mem == c.mem && c1.log == c.log
    requires Restored(dirty, dump, c.mem, c.regs, c1.regs, Reach(starts, masks, k))
    ensures var d := ExecOp(Load(starts[k], addr, masks[k], Offset(masks, k)), c1);
            && Reach(starts, masks, k + 1) <= nregs && d.mem == c.mem && d.log == c.log
            && Restored(dirty, dump, c.mem, c.regs, d.regs, Reach(starts, masks, k + 1))
  {
    hide Rank, Groups, LoadRow, Address, Offset, Slot, Restored, Get64, ExecOp;
    Gap(dirty, nregs, starts, masks, k);
    Gap(dirty, nregs, starts, masks, k + 1);
    AddrKept(dirty, dump, c.mem, c.regs, c1.regs, Reach(starts, masks, k), addr);
    GroupAddress(dirty, nregs, starts, masks, k, c1.regs, addr, dump);
    RestoredMore(dirty, dump, c.mem, c.regs, c1.regs, Reach(starts, masks, k), starts[k], masks[k]);
    LoadIs(c1, starts[k], addr, masks[k], Offset(masks, k));
  }

  // ----- Whole functions ------------------------------------------------------------------------------

  /** The function as it is emitted: `addr` is the builder's own register pair; `ctx` and `off` say where the
      address of the dump area is kept. */
  function Wrapped(ctx: Reg, off: int, addr: Reg, starts: seq<nat>, masks: seq<seq<bool>>, body: Stmt): Stmt
    requires |starts| == |masks|
  {
    if starts == [] then body
    else
      Stmt.Seq(Op(Load(addr, ctx, Lists.TWO, off)),
      Stmt.Seq(Arith.Ops(Saves(starts, masks, addr, |starts|)),
      Stmt.Seq(FlushStores,
      Stmt.Seq(body, Epilogue(ctx, off, addr, starts, masks)))))
  }

  function Epilogue(ctx: Reg, off: int, addr: Reg, starts: seq<nat>, masks: seq<seq<bool>>): Stmt
    requires |starts| == |masks|
  {
    Stmt.Seq(Op(Load(addr, ctx, Lists.TWO, off)), Stmt.Seq(Arith.Ops(Restores(starts, masks, addr, |starts|)),
                                                           FlushLoads))
  }

  /** The state the body starts from. */
  function Entered(ctx: Reg, off: int, addr: Reg, starts: seq<nat>, masks: seq<seq<bool>>, c: Core): Core
    requires |starts| == |masks|
  {
    Arith.RunOps(Saves(starts, masks, addr, |starts|), ExecOp(Load(addr, ctx, Lists.TWO, off), c))
  }

  function Left(ctx: Reg, off: int, addr: Reg, starts: seq<nat>, masks: seq<seq<bool>>, c: Core): Core
    requires |starts| == |masks|
  {
    Arith.RunOps(Restores(starts, masks, addr, |starts|), ExecOp(Load(addr, ctx, Lists.TWO, off), c))
  }

  lemma WrappedRuns(ctx: Reg, off: int, addr: Reg, starts: seq<nat>, masks: seq<seq<bool>>, body: Stmt, fuel: nat,
                    c: Core, e: Core)
    requires |starts| == |masks| && starts != []
    requires Exec(body, fuel, Entered(ctx, off, addr, starts, masks, c)) == Done(e)
    ensures Exec(Wrapped(ctx, off, addr, starts, masks, body), fuel, c) == Done(Left(ctx, off, addr, starts, masks, e))
  {
    hide ExecOp;
    var saves, restores := Saves(starts, masks, addr, |starts|), Restores(starts, masks, addr, |starts|);
    var load, c1, e1 := Load(addr, ctx, Lists.TWO, off), ExecOp(Load(addr, ctx, Lists.TWO, off),
                                                                c), ExecOp(Load(addr, ctx, Lists.TWO, off), e);
    var enter := Entered(ctx, off, addr, starts, masks, c);
    Arith.OpsMean(saves, fuel, c1);
    Arith.OpsMean(restores, fuel, e1);
    var last := Stmt.Seq(Arith.Ops(restores), FlushLoads);
    assert Exec(FlushLoads, fuel, Arith.RunOps(restores, e1)) == Done(Arith.RunOps(restores, e1));
    assert Exec(last, fuel, e1) == Done(Left(ctx, off, addr, starts, masks, e));
    assert Exec(Op(load), fuel, e) == Done(e1);
    assert Exec(Epilogue(ctx, off, addr, starts, masks), fuel, e) == Exec(last, fuel, e1);
    var inner := Stmt.Seq(body, Epilogue(ctx, off, addr, starts, masks));
    assert Exec(inner, fuel, enter) == Exec(Epilogue(ctx, off, addr, starts, masks), fuel, e);
    assert Exec(FlushStores, fuel, enter) == Done(enter);
    assert Exec(Stmt.Seq(FlushStores, inner), fuel, enter) == Exec(inner, fuel, enter);
    assert Exec(Stmt.Seq(Arith.Ops(saves), Stmt.Seq(FlushStores, inner)), fuel, c1) == Exec(inner, fuel, enter);
    assert Exec(Op(load), fuel, c) == Done(c1);
  }

  /** What the body may do between `c`, where it starts, and `e`: write registers that are tracked as dirty,
      but leave the context register, the address kept there and the dump area as they are. */
  ghost predicate Behaves(dirty: seq<bool>, nregs: nat, ctx: Reg, kept: nat, dump: nat, c: Core, e: Core)
    requires nregs <= |dirty|
  {
    && (forall r: nat :: r < nregs && !dirty[r] ==> Get(e.regs, r) == Get(c.regs, r))
    && Get64(e.regs, ctx) == Get64(c.regs, ctx) && Lists.Word64(e.mem, kept) == Lists.Word64(c.mem, kept)
    && forall x: nat :: dump <= x < Slot(dirty, dump, nregs) ==> Cell(e.mem, x) == Cell(c.mem, x)
  }

  /** Loading the dump address into the builder's own pair. */
  lemma DumpLoaded(c: Core, ctx: Reg, off: int, addr: Reg)
    ensures var d := ExecOp(Load(addr, ctx, Lists.TWO, off), c);
            && Get64(d.regs, addr) == Lists.Word64(c.mem, Address(c.regs, ctx, off)) && d.mem == c.mem && d.log == c.log
            && forall r: nat :: r != addr && r != addr + 1 ==> Get(d.regs, r) == Get(c.regs, r)
  {
    var a := Address(c.regs, ctx, off);
    assert Lists.TWO[1..] == [true] && Lists.TWO[1..][1..] == [];
    assert LoadRow(c.regs, c.mem, addr, Lists.TWO, a) == c.regs[addr := Cell(c.mem, a)][addr + 1 := Cell(c.mem, a + 4)];
  }

  /** All dirty registers are in the dump area when the body starts. */
  lemma Enters(dirty: seq<bool>, nregs: nat, starts: seq<nat>, masks: seq<seq<bool>>, ctx: Reg, off: int, addr: Reg,
               c: Core)
    requires |starts| == |masks| && nregs <= |dirty| && Groups(dirty, nregs, starts, masks) && nregs <= addr
    requires Lists.Word64(c.mem, Address(c.regs, ctx, off)) + 4 * Rank(dirty, nregs) < W64
    ensures var dump, e := Lists.Word64(c.mem, Address(c.regs, ctx, off)), Entered(ctx, off, addr, starts, masks, c);
            && (forall r: nat :: r != addr && r != addr + 1 ==> Get(e.regs, r) == Get(c.regs, r)) && e.log == c.log
            && (forall r: nat :: r < nregs && dirty[r] ==> Cell(e.mem, Slot(dirty, dump, r)) == Get(c.regs, r))
            && forall x: nat :: x < dump || x >= Slot(dirty, dump, nregs) ==> Cell(e.mem, x) == Cell(c.mem, x)
  {
    hide ExecOp, Arith.RunOps, Groups, Rank, Slot, Lists.Word64, Get64;
    var dump, n := Lists.Word64(c.mem, Address(c.regs, ctx, off)), |starts|;
    var c1 := ExecOp(Load(addr, ctx, Lists.TWO, off), c);
    DumpLoaded(c, ctx, off, addr);
    RunSaves(dirty, nregs, starts, masks, addr, n, c1, dump);
    Gap(dirty, nregs, starts, masks, n);
    SlotGrows(dirty, dump, Reach(starts, masks, n), nregs);
  }

  /** A function keeps every register its caller can use: saved before, restored after, from where they were saved. */
  lemma SaveRestore(dirty: seq<bool>, nregs: nat, starts: seq<nat>, masks: seq<seq<bool>>, ctx: Reg, off: int,
                    addr: Reg, body: Stmt, fuel: nat, c: Core, e: Core)
    requires |starts| == |masks| && nregs <= |dirty| && Groups(dirty, nregs, starts, masks) && nregs <= addr
    requires ctx + 1 < addr
    requires var kept := Address(c.regs, ctx, off);
             var dump := Lists.Word64(c.mem, kept);
             && dump + 4 * Rank(dirty, nregs) < W64 && Lists.Apart(kept, 8, dump, 4 * Rank(dirty, nregs))
             && (var start := if starts == [] then c else Entered(ctx, off, addr, starts, masks, c);
                 Exec(body, fuel, start) == Done(e) && Behaves(dirty, nregs, ctx, kept, dump, start, e))
    ensures var d := if starts == [] then e else Left(ctx, off, addr, starts, masks, e);
            && Exec(Wrapped(ctx, off, addr, starts, masks, body), fuel, c) == Done(d)
            && d.mem == e.mem && d.log == e.log
            && forall r: nat :: r < nregs ==> Get(d.regs, r) == Get(c.regs, r)
  {
    if starts == [] {
      Gap(dirty, nregs, starts, masks, 0);
    } else {
      hide Exec, Wrapped, Entered, Left;
      WrappedRuns(ctx, off, addr, starts, masks, body, fuel, c, e);
      Leaves(dirty, nregs, starts, masks, ctx, off, addr, c, e);
    }
  }

  lemma Leaves(dirty: seq<bool>, nregs: nat, starts: seq<nat>, masks: seq<seq<bool>>, ctx: Reg, off: int, addr: Reg,
               c: Core, e: Core)
    requires |starts| == |masks| && nregs <= |dirty| && Groups(dirty, nregs, starts, masks) && nregs <= addr
    requires ctx + 1 < addr
    requires var kept := Address(c.regs, ctx, off);
             var dump := Lists.Word64(c.mem, kept);
             && dump + 4 * Rank(dirty, nregs) < W64 && Lists.Apart(kept, 8, dump, 4 * Rank(dirty, nregs))
             && Behaves(dirty, nregs, ctx, kept, dump, Entered(ctx, off, addr, starts, masks, c), e)
    ensures var d := Left(ctx, off, addr, starts, masks, e);
            d.mem == e.mem && d.log == e.log && forall r: nat :: r < nregs ==> Get(d.regs, r) == Get(c.regs, r)
  {
    hide ExecOp, Arith.RunOps, Groups, Rank, Slot, Get64, Lists.Word64, Address, Cell, Entered;
    var kept, n := Address(c.regs, ctx, off), |starts|;
    var dump, start := Lists.Word64(c.mem, kept), Entered(ctx, off, addr, starts, masks, c);
    Enters(dirty, nregs, starts, masks, ctx, off, addr, c);
    KeptWord(dirty, nregs, kept, dump, c.mem, start.mem);
    ContextKept(c.regs, start.regs, e.regs, ctx, off, addr);
    var e1 := ExecOp(Load(addr, ctx, Lists.TWO, off), e);
    DumpLoaded(e, ctx, off, addr);
    RunRestores(dirty, nregs, starts, masks, addr, n, e1, dump);
    Gap(dirty, nregs, starts, masks, n);
    forall r: nat | r < nregs && dirty[r] ensures dump <= Slot(dirty, dump, r) < Slot(dirty, dump,
            nregs) { SlotGrows(dirty, dump, r, nregs); }
  }

  lemma KeptWord(dirty: seq<bool>, nregs: nat, kept: nat, dump: nat, was: map<nat, Word>, now: map<nat, Word>)
    requires nregs <= |dirty| && Lists.Apart(kept, 8, dump, 4 * Rank(dirty, nregs))
    requires forall x: nat :: x < dump || x >= Slot(dirty, dump, nregs) ==> Cell(now, x) == Cell(was, x)
    ensures Lists.Word64(now, kept) == Lists.Word64(was, kept)
  {
  }

  lemma ContextKept(a: map<Reg, Word>, b: map<Reg, Word>, e: map<Reg, Word>, ctx: Reg, off: int, addr: Reg)
    requires ctx + 1 < addr && (forall r: nat :: r != addr && r != addr + 1 ==> Get(b, r) == Get(a, r))
    requires Get64(e, ctx) == Get64(b, ctx)
    ensures Address(e, ctx, off) == Address(a, ctx, off)
  {
  }
}
