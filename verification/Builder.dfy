/**
 The builder proper: blocks of instructions under construction, labels, conditions, loops, matches and
 maybe blocks, and the load/store tracker that decides where to wait.
 */
module Builder {
  import opened Isa
  import opened Structured
  import opened Labels
  import Chunks

  // ----- The structures clients hold ----------------------------------------------------------------

  class Label {
    var lastForwardRef: int
    var target: int

    /** The positions of the branches to this label that were emitted before it was set. */
    ghost var refs: seq<nat>

    constructor ()
      ensures Clear()
    {
      lastForwardRef, target, refs := NO_POS, NO_POS, [];
    }

    ghost predicate Clear()
      reads this
    {
      lastForwardRef == NO_POS && target == NO_POS && refs == []
    }

    /** Not set yet, with its references linked through `instrs`. */
    ghost predicate Open(instrs: seq<Instr>)
      reads this
    {
      target == NO_POS && Chained(instrs, refs, lastForwardRef)
    }

    method Init()
      modifies this
      ensures Clear()
    {
      lastForwardRef, target, refs := NO_POS, NO_POS, [];
    }

    method Copy(from: Label)
      modifies this
      ensures lastForwardRef == old(from.lastForwardRef) && target == old(from.target) && refs == old(from.refs)
    {
      lastForwardRef, target, refs := from.lastForwardRef, from.target, from.refs;
    }
  }

  class Block {
    var next: Block?

    constructor ()
      ensures next == null
    {
      next := null;
    }
  }

  class LsTracker {
    var now: Ls

    constructor (ls: Ls)
      ensures now == ls
    {
      now := ls;
    }
  }

  /** An `if` or `else` body under construction; the builder keeps the last one closed. */
  class IfElse {
    const block: Block
    const endLabel: Label
    const lsState: LsTracker
    var orig: LsTracker

    constructor (tracker: LsTracker)
      ensures fresh(block) && fresh(endLabel) && fresh(lsState)
      ensures block.next == null && endLabel.Clear() && lsState.now == IDLE && orig == tracker
    {
      block := new Block();
      endLabel := new Label();
      lsState := new LsTracker(IDLE);
      orig := tracker;
    }
  }

  /** A maybe block: where its instructions are, and what they are. */
  class MaybeBlock {
    const patchPos: nat
    const instrs: seq<Instr>

    /** The place in the chunk, once the outermost block has been closed. */
    var patchAddr: Chunks.Patch
    ghost var chunk: nat

    /** The block is in the chunks, at position `pos` of their stream. */
    ghost predicate In(parts: seq<Chunks.Part>, mems: seq<array<Instr>>, pos: nat)
      reads this
    {
      && patchAddr.Patch? && chunk < |parts| && |mems| == |parts| && Chunks.Sized(parts)
      && patchAddr.cpu == mems[chunk] && patchAddr.at + |instrs| <= parts[chunk].size
      && pos == Chunks.StreamPos(parts, chunk, patchAddr.at)
    }

    ghost predicate At(out: Chunks.CommandStream, pos: nat)
      reads this, out
    {
      In(out.parts, out.mems, pos)
    }

    /** It stays where it is, whatever is recorded behind it. */
    lemma InKept(was: seq<Chunks.Part>, wasMems: seq<array<Instr>>, now: seq<Chunks.Part>, mems: seq<array<Instr>>,
                 pos: nat)
      requires In(was, wasMems, pos) && Chunks.Extends(now, was) && wasMems <= mems && |mems| == |now|
      ensures In(now, mems, pos)
    {
      Chunks.ExtendsAt(now, was, chunk, patchAddr.at);
    }

    constructor (patchPos: nat, instrs: seq<Instr>)
      ensures this.patchPos == patchPos && this.instrs == instrs && patchAddr == Chunks.NoPatch
    {
      this.patchPos := patchPos;
      this.instrs := instrs;
      patchAddr := Chunks.NoPatch;
      chunk := 0;
    }
  }

  // ----- The LOAD_IP chain ----------------------------------------------------------------------------

  /** `ips` are the slots behind the LOAD_IP instructions of a block, oldest first; the immediate of each
      holds the slot of the one before it, 0 ends the list. */
  ghost predicate IpChained(instrs: seq<Instr>, ips: seq<nat>, last: nat) {
    && last == (if ips == [] then 0 else ips[|ips| - 1])
    && (forall k :: 0 <= k < |ips| ==> 0 < ips[k] <= |instrs| && instrs[ips[k] - 1].Move48?)
    && (forall j, k :: 0 <= j < k < |ips| ==> ips[j] < ips[k])
    && (forall k {:trigger IpBefore(ips, k)} :: 0 <= k < |ips| ==> instrs[ips[k] - 1].imm48 == IpBefore(ips, k))
  }

  function IpBefore(ips: seq<nat>, k: nat): nat
    requires k < |ips|
  {
    if k == 0 then 0 else ips[k - 1]
  }

  /** The block with every LOAD_IP holding the address of the slot behind it, for a block that starts at
      instruction `at` of the buffer at `gpu`. */
  function WithIps(instrs: seq<Instr>, ips: seq<nat>, gpu: nat, at: nat): (r: seq<Instr>)
    ensures |r| == |instrs|
  {
    seq(|instrs|, i requires 0 <= i < |instrs| =>
      if i + 1 in ips && instrs[i].Move48? then instrs[i].(imm48 := gpu + (at + i + 1) * 8) else instrs[i])
  }

  lemma WithNoIps(instrs: seq<Instr>, gpu: nat, at: nat)
    ensures WithIps(instrs, [], gpu, at) == instrs
  {
  }

  lemma WithIpsStep(instrs: seq<Instr>, ips: seq<nat>, last: nat, j: nat, gpu: nat, at: nat)
    requires IpChained(instrs, ips, last) && 0 < j <= |ips|
    ensures var t := ips[j - 1];
            var w := WithIps(instrs, ips[j..], gpu, at);
            && w[t - 1] == instrs[t - 1] && w[t - 1].Move48? && w[t - 1].imm48 == IpBefore(ips, j - 1)
            && WithIps(instrs, ips[j - 1..], gpu, at) == w[t - 1 := instrs[t - 1].(imm48 := gpu + (at + t) * 8)]
  {
    hide IpBefore;
    var t, a := ips[j - 1], ips[j..];
    IpsBehind(instrs, ips, last, j);
    var w, next := WithIps(instrs, a, gpu, at), WithIps(instrs, ips[j - 1..], gpu, at);
    forall i | 0 <= i < |instrs| ensures next[i] == w[t - 1 := instrs[t - 1].(imm48 := gpu + (at + t) * 8)][i] {}
  }

  /** The chain goes down: what is behind a LOAD_IP in it is further up. */
  lemma IpsBehind(instrs: seq<Instr>, ips: seq<nat>, last: nat, j: nat)
    requires IpChained(instrs, ips, last) && 0 < j <= |ips|
    ensures var t := ips[j - 1];
            && 0 < t <= |instrs| && instrs[t - 1].Move48? && instrs[t - 1].imm48 == IpBefore(ips, j - 1)
            && t !in ips[j..]
            && forall i :: i in ips[j - 1..] <==> i == t || i in ips[j..]
  {
    hide IpBefore;
    var t, a := ips[j - 1], ips[j..];
    assert ips[j - 1..] == [t] + a;
    assert forall k :: 0 <= k < |a| ==> a[k] == ips[j + k] && ips[j + k] > t;
  }

  // ----- The builder ------------------------------------------------------------------------------------

  /** What the stream and the LOAD_IPs of a block are before the block is sent. */
  datatype Sending = Before(ips: seq<nat>, stream: seq<Instr>, invalid: bool, parts: seq<Chunks.Part>,
                             mems: seq<array<Instr>>, space: Chunks.Space)

  class Builder {
    const out: Chunks.CommandStream
    const lsSlot: nat

    /** The innermost open block; `pending.block` while the last `if` may still be given an `else`. */
    var stack: Block?
    var instrs: seq<Instr>
    const pending: IfElse
    var cur: LsTracker
    var pendingMaybes: seq<MaybeBlock>
    var lastLoadIpTarget: nat

    ghost var ips: seq<nat>

    constructor (out: Chunks.CommandStream, lsSlot: nat)
      ensures Valid() && this.out == out && this.lsSlot == lsSlot
      ensures stack == null && !Active() && instrs == [] && pendingMaybes == [] && ips == [] && lastLoadIpTarget == 0
      ensures cur.now == IDLE && pending.lsState.now == IDLE && fresh(cur)
      ensures fresh(pending) && fresh(pending.block) && fresh(pending.endLabel) && fresh(pending.lsState)
    {
      this.out := out;
      this.lsSlot := lsSlot;
      stack, instrs, pendingMaybes, lastLoadIpTarget, ips := null, [], [], 0, [];
      var root := new LsTracker(IDLE);
      cur := root;
      pending := new IfElse(root);
    }

    ghost predicate Active()
      reads this`stack, pending
    {
      stack == pending.block
    }

    /** The innermost open block, not counting the pending `if`. */
    ghost function Outer(): Block?
      reads this, pending, pending.block
    {
      if Active() then pending.block.next else stack
    }

    ghost function ActiveRefs(): seq<nat>
      reads this`stack, pending, pending.endLabel
    {
      if Active() then pending.endLabel.refs else []
    }

    ghost function Closing(): set<object>
      reads this, pending
    {
      if Active() then {pending.endLabel} else {}
    }

    /** The block as it will be once the pending `if` is closed without an `else`. */
    ghost function View(): seq<Instr>
      reads this`instrs, this`stack, pending, pending.endLabel
    {
      Patch(instrs, ActiveRefs(), |instrs|)
    }

    ghost predicate Valid()
      reads this, pending, pending.block, pending.endLabel
    {
      && cur != pending.lsState
      && (Active() ==> pending.block.next != pending.block && pending.endLabel.Open(instrs)
                       && AllNear(pending.endLabel.refs, |instrs|))
    }

    ghost function Ctx(): Structured.Ctx
      reads this, cur, pending, pending.lsState
    {
      Structured.Ctx(cur.now, pending.lsState.now, Active())
    }

    /** What a flush of the outermost block needs. */
    ghost predicate FlushReady()
      reads this, out, out.mems
    {
      && out.Valid()
      && |instrs| < W32 && (out.allocates ==> |instrs| + 1 <= out.largest)
      && (!out.invalid ==> IpChained(instrs, ips, lastLoadIpTarget))
    }

    ghost function FlushFrame(): set<object>
      reads this, out
    {
      {out} + out.buffers + set m | m in pendingMaybes
    }

    /** Resolve every branch that refers to the lab, following the links through their offsets. */
    method SetLabel(lab: Label)
      requires stack != null && lab.Open(instrs) && AllNear(lab.refs, |instrs|)
      modifies this`instrs, lab
      ensures lab.target == |instrs| == |old(instrs)| && lab.refs == old(lab.refs)
      ensures instrs == Patch(old(instrs), lab.refs, |instrs|)
    {
      hide Patch, AllNear, Chained;
      ghost var was, last := instrs, lab.lastForwardRef;
      ChainedLast(was, lab.refs, last);
      lab.target := |instrs|;
      var forwardRef := lab.lastForwardRef;
      ghost var j := |lab.refs|;
      assert lab.refs[j..] == [];
      PatchNothing(was, |was|);
      while forwardRef != NO_POS
        invariant 0 <= j <= |lab.refs|
        invariant forwardRef == if j == 0 then NO_POS else lab.refs[j - 1]
        invariant instrs == Patch(was, lab.refs[j..], |was|)
        invariant lab.refs == old(lab.refs) && lab.target == |was|
        decreases j
      {
        PatchStep(was, lab.refs, last, j, |was|);
        var offset := instrs[forwardRef].rel;
        var next := if offset > 0 then forwardRef - offset else NO_POS;
        instrs := instrs[forwardRef := instrs[forwardRef].(rel := lab.target - forwardRef - 1)];
        forwardRef := next;
        j := j - 1;
      }
      assert lab.refs[0..] == lab.refs;
    }

    /** Point the LOAD_IPs of the block at their slots; the block starts at `at` of the buffer at `gpu`. */
    method PatchIps(gpu: nat, at: nat)
      requires IpChained(instrs, ips, lastLoadIpTarget) && |instrs| < W32
      modifies this`instrs, this`lastLoadIpTarget, this`ips
      ensures lastLoadIpTarget == 0 && ips == [] && instrs == WithIps(old(instrs), old(ips), gpu, at)
    {
      hide WithIps;
      ghost var was, j := instrs, |ips|;
      assert ips[j..] == [];
      WithNoIps(was, gpu, at);
      while lastLoadIpTarget != 0
        invariant 0 <= j <= |ips| && ips == old(ips)
        invariant lastLoadIpTarget == if j == 0 then 0 else ips[j - 1]
        invariant instrs == WithIps(was, ips[j..], gpu, at)
        decreases j
      {
        WithIpsStep(was, ips, old(lastLoadIpTarget), j, gpu, at);
        var t := lastLoadIpTarget;
        var prev := instrs[t - 1].imm48 % W32;
        var ip := gpu + (at + t) * 8;
        instrs := instrs[t - 1 := instrs[t - 1].(imm48 := instrs[t - 1].imm48 - prev + ip)];
        lastLoadIpTarget := prev;
        j := j - 1;
      }
      assert ips[0..] == ips;
      ips := [];
    }

    /** Copy a finished outermost block to the stream, in one piece, and fix what depends on where it is. */
    method FlushBlockInstrs()
      requires stack == null ==> FlushReady()
      modifies if stack == null then FlushFrame() + {this} else {}
      ensures stack == old(stack) && cur == old(cur)
      ensures stack == null ==> out.Valid() && (old(out.invalid) ==> out.invalid) && old(out.mems) <= out.mems
                                && Chunks.Extends(out.parts, old(out.parts))
      ensures stack == null ==>
                out.SpaceLeft() == Chunks.Behind(old(out.SpaceLeft()), |old(instrs)|, |old(instrs)| in old(ips))
      ensures stack == null && old(instrs) == [] ==>
               && unchanged(out) && instrs == []
               && pendingMaybes == old(pendingMaybes)
                                                      && ips == old(ips) && lastLoadIpTarget == old(lastLoadIpTarget)
      ensures stack == null && old(instrs) != [] && !out.invalid ==>
                && instrs == [] && ips == [] && lastLoadIpTarget == 0 && pendingMaybes == []
                && CopiedTo(old(instrs), old(ips), old(out.Stream()))
                && (|old(instrs)| in old(ips) ==> out.Room(1))
                && forall m :: m in old(pendingMaybes) && m.patchPos + |m.instrs| <= |old(instrs)| ==>
                     m.At(out, |old(out.Stream())| + m.patchPos)
    {
      hide Chunks.Linked, Chunks.Apart, Chunks.Within, Chunks.InMemory, Chunks.Flatten, Chunks.Extends, Chunks.Roomy;
      hide WithIps, Chunks.CommandStream.Valid, Chunks.Taken, Chunks.Reserved, Chunks.CommandStream.SpaceLeft;
      if stack != null { return; }
      var n := |instrs|;
      LastIp(instrs, ips, lastLoadIpTarget);
      ghost var endsInIp := n in ips;
      Chunks.FullStays(n, endsInIp);
      if out.invalid { out.FullSpace(); }
      if n == 0 {
        Chunks.BehindNothing(out.SpaceLeft());
        Chunks.ExtendsItself(out.nrRegisters, out.parts);
        return;
      }
      ghost var mid := old(out.parts);
      if lastLoadIpTarget >= n {
        var ok := out.Reserve(n + 1);
        if !ok {
          out.FullSpace();
          return;
        }
        mid := out.parts;
      } else {
        Chunks.ExtendsItself(out.nrRegisters, out.parts);
      }
      PlaceBlock(lastLoadIpTarget >= n);
      Chunks.ExtendsTransitive(out.parts, mid, old(out.parts));
      instrs := [];
    }

    /** Allocate room for the block, finish it and copy it. */
    method PlaceBlock(ghost roomy: bool)
      requires stack == null && instrs != [] && FlushReady() && (!out.invalid && roomy ==> out.Room(|instrs| + 1))
      modifies this`instrs, this`pendingMaybes, this`lastLoadIpTarget, this`ips, FlushFrame()
      ensures out.Valid() && (old(out.invalid) ==> out.invalid) && old(out.mems) <= out.mems
      ensures |instrs| == |old(instrs)|
      ensures Chunks.Extends(out.parts, old(out.parts))
      ensures out.SpaceLeft() == Chunks.Taken(old(out.SpaceLeft()), |instrs|)
      ensures !out.invalid ==>
                && ips == [] && lastLoadIpTarget == 0 && pendingMaybes == []
                && CopiedTo(old(instrs), old(ips), old(out.Stream()))
                && (roomy ==> out.Room(1))
                && forall m :: m in old(pendingMaybes) && m.patchPos + |m.instrs| <= |old(instrs)| ==>
                     m.At(out, |old(out.Stream())| + m.patchPos)
    {
      hide Chunks.Linked, Chunks.Apart, Chunks.Within, Chunks.InMemory, Chunks.Flatten, Chunks.Extends, Chunks.Roomy;
      hide WithIps, Chunks.CommandStream.Valid, Chunks.Taken, Chunks.CommandStream.SpaceLeft;
      var n := |instrs|;
      var ok := out.Alloc(n);
      if ok {
        ghost var mid, s, maybes, at := out.parts, out.Stream(), pendingMaybes, |out.Stream()| - n;
        LocateMaybes(n);
        forall m | m in maybes && m.patchPos + |m.instrs| <= n ensures m.In(mid, out.mems, at + m.patchPos) {
          Located(m, n);
        }
        PatchIps(out.cur.buffer.gpu, out.cur.pos - n);
        assert s[..at] == old(out.Stream());
        out.Fill(instrs);
        forall m | m in maybes && m.patchPos + |m.instrs| <= n ensures m.At(out, at + m.patchPos) {
          m.InKept(mid, out.mems, out.parts, out.mems, at + m.patchPos);
        }
        SameLast(mid);
        Chunks.ExtendsTransitive(out.parts, mid, old(out.parts));
      }
    }

    lemma Located(m: MaybeBlock, n: nat)
      requires out.Valid() && out.parts != [] && n <= out.cur.pos && m.patchPos + |m.instrs| <= n && n <= |out.Stream()|
      requires m.patchAddr == Chunks.Patch(out.cur.buffer.cpu, out.cur.pos - n + m.patchPos)
      requires m.chunk == |out.parts| - 1
      ensures m.In(out.parts, out.mems, |out.Stream()| - n + m.patchPos)
    {
      hide Chunks.Linked, Chunks.Apart, Chunks.Within, Chunks.InMemory, Chunks.Flatten, Chunks.Roomy,
           Chunks.CommandStream.Valid;
      Chunks.LastAt(out.parts);
    }

    lemma SameLast(was: seq<Chunks.Part>)
      requires out.Valid() && out.parts != [] && Chunks.Extends(out.parts, was) && |out.parts| == |was|
      ensures out.cur.buffer.gpu == was[|was| - 1].gpu && out.cur.pos == out.parts[|was| - 1].size
    {
      hide Chunks.Linked, Chunks.Apart, Chunks.Within, Chunks.InMemory, Chunks.Flatten, Chunks.Roomy,
           Chunks.CommandStream.Valid;
    }

    /** The block is at the end of the stream, in a single chunk, with every LOAD_IP pointing behind itself. */
    ghost predicate CopiedTo(block: seq<Instr>, blockIps: seq<nat>, before: seq<Instr>)
      reads out
    {
      && out.parts != [] && Chunks.Sized(out.parts)
      && var last := out.parts[|out.parts| - 1];
         && |block| <= last.size
         && out.Stream() == before + WithIps(block, blockIps, last.gpu, last.size - |block|)
    }

    lemma CopiedPlain(block: seq<Instr>, before: seq<Instr>)
      ensures CopiedTo(block, [], before) ==> out.Stream() == before + block
    {
      if CopiedTo(block, [], before) {
        var last := out.parts[|out.parts| - 1];
        WithNoIps(block, last.gpu, last.size - |block|);
      }
    }

    /** Tell the maybe blocks of the block just allocated where they are going to be. */
    method LocateMaybes(n: nat)
      requires out.cur.buffer.Buffer? && out.parts != [] && n <= out.cur.pos
      modifies this`pendingMaybes, pendingMaybes
      ensures pendingMaybes == []
      ensures forall m :: m in old(pendingMaybes) ==>
                && m.patchAddr == Chunks.Patch(out.cur.buffer.cpu, out.cur.pos - n + m.patchPos)
                && m.chunk == |out.parts| - 1
    {
      ghost var done: seq<MaybeBlock> := [];
      while pendingMaybes != []
        invariant done + pendingMaybes == old(pendingMaybes)
        invariant forall m :: m in done ==>
                    && m.patchAddr == Chunks.Patch(out.cur.buffer.cpu, out.cur.pos - n + m.patchPos)
                    && m.chunk == |out.parts| - 1
        decreases |pendingMaybes|
      {
        var m := pendingMaybes[0];
        assert old(pendingMaybes)[|done|] == m;
        m.patchAddr := Chunks.Patch(out.cur.buffer.cpu, out.cur.pos - n + m.patchPos);
        m.chunk := |out.parts| - 1;
        done := done + [m];
        pendingMaybes := pendingMaybes[1..];
      }
      assert done == old(pendingMaybes);
    }

    // ----- Emission -----------------------------------------------------------------------------------

    /** Close the pending `if`: its label is set to where the block ends now. */
    method FlushPendingIf()
      requires Valid() && (Active() && Outer() == null ==> FlushReady())
      modifies this`instrs, this`stack, Closing(), if Active() && Outer() == null then FlushFrame() + {this} else {}
      ensures Valid() && !Active() && stack == old(Outer()) && cur == old(cur)
      ensures !old(Active()) || old(Outer()) != null ==> instrs == old(View())
      ensures old(Active()) && old(Outer()) == null ==> out.Valid() && (old(out.invalid) ==> out.invalid)
      ensures old(Active()) && old(Outer()) == null ==>
               && old(out.mems) <= out.mems
               && Chunks.Extends(out.parts, old(out.parts))
      ensures old(Active()) && old(Outer()) == null && !out.invalid && old(instrs) != [] ==>
                && instrs == [] && ips == [] && lastLoadIpTarget == 0 && pendingMaybes == []
                && CopiedTo(old(View()), old(ips), old(out.Stream()))
      ensures old(Active()) && old(Outer()) == null ==>
                out.SpaceLeft() == Chunks.Behind(old(out.SpaceLeft()), |old(instrs)|, |old(instrs)| in old(ips))
      ensures old(Active()) && old(Outer()) == null && old(instrs) == [] ==>
                instrs == [] && out.Stream() == old(out.Stream()) && out.invalid == old(out.invalid)
      ensures old(Active()) && old(Outer()) == null && old(instrs) != [] ==>
                Sent(old(View()), old(pendingMaybes), old(Sending()))
    {
      hide Chunks.CommandStream.Valid, Chunks.Flatten, Chunks.Extends, Patch, WithIps, IpChained, Chained, AllNear,
           CopiedTo, Chunks.Behind;
      PatchNothing(instrs, |instrs|);
      if stack == pending.block {
        ClosePending();
        FlushBlockInstrs();
      }
    }

    /** Set the label of the pending `if` and take it off the stack. */
    method ClosePending()
      requires Valid() && Active()
      modifies this`instrs, this`stack, Closing()
      ensures Valid() && !Active() && stack == old(Outer()) && instrs == old(View())
      ensures old(IpChained(instrs, ips, lastLoadIpTarget)) ==> IpChained(instrs, ips, lastLoadIpTarget)
    {
      IpsSurvivePatch(instrs, ips, lastLoadIpTarget, pending.endLabel.refs, |instrs|);
      SetLabel(pending.endLabel);
      stack := pending.block.next;
    }

    /** Emit one instruction inside a block. */
    method Emit(i: Instr)
      requires Valid() && Outer() != null
      modifies this`instrs, this`stack, Closing()
      ensures Valid() && !Active() && stack == old(Outer())
      ensures instrs == old(View()) + [i]
    {
      PatchNothing(instrs, |instrs|);
      if stack == pending.block { ClosePending(); }
      instrs := instrs + [i];
    }

    /** Emit one instruction outside any block, straight into the stream. */
    method EmitToStream(i: Instr)
      requires Valid() && Outer() == null && FlushReady() && (!Active() ==> instrs == [])
      requires out.allocates ==> 1 <= out.largest
      modifies this, Closing(), FlushFrame()
      ensures Valid() && !Active() && stack == null && cur == old(cur) && out.Valid()
      ensures (old(out.invalid) ==> out.invalid)
      ensures out.SpaceLeft() == Chunks.Taken(Chunks.Behind(old(out.SpaceLeft()), |old(instrs)|,
                                                            |old(instrs)| in old(ips)), 1)
      ensures !out.invalid && old(ips) == [] ==> instrs == [] && out.Stream() == old(out.Stream()) + old(View()) + [i]
      ensures old(out.mems) <= out.mems && Chunks.Extends(out.parts, old(out.parts))
      ensures !out.invalid ==> out.parts != [] && 1 <= out.parts[|out.parts| - 1].size
      ensures !old(Active()) ==> (instrs == [] && pendingMaybes == old(pendingMaybes) && ips == old(ips)
                                  && lastLoadIpTarget == old(lastLoadIpTarget))
    {
      hide Chunks.CommandStream.Valid, Chunks.Flatten, Chunks.Extends, WithIps, Patch, Chained, IpChained, CopiedTo,
           Chunks.Taken, Chunks.Behind, Sent, Sending, Chunks.CommandStream.SpaceLeft, AllNear,
           Chunks.CommandStream.Room, Chunks.Sized;
      PatchNothing(instrs, |instrs|);
      Chunks.BehindNothing(out.SpaceLeft());
      Steady(out);
      FlushPendingIf();
      if ips == [] && !out.invalid { CopiedPlain(old(View()), old(out.Stream())); }
      assert !out.invalid && old(ips) == [] ==> out.Stream() == old(out.Stream()) + old(View());
      ghost var mid := out.parts;
      var _ := out.Append(i);
      Chunks.ExtendsTransitive(out.parts, mid, old(out.parts));
    }

    lemma Steady(out: Chunks.CommandStream)
      requires out.Valid()
      ensures Chunks.Extends(out.parts, out.parts)
    {
      hide Chunks.Apart, Chunks.Flatten, Chunks.Extends;
      Chunks.ExtendsItself(out.nrRegisters, out.parts);
    }

    /** WAIT; waiting for the load/store slot completes what the tracker knows about. */
    method WaitSlots(slots: set<nat>)
      requires Valid() && Outer() != null
      modifies this`instrs, this`stack, Closing(), cur
      ensures Valid() && !Active() && stack == old(Outer())
      ensures instrs == old(View()) + [Wait(slots)] && cur.now == After(lsSlot, Wait(slots), old(cur.now))
    {
      Emit(Wait(slots));
      if lsSlot in slots {
        cur.now := Ls({}, false);
      }
    }

    /** Wait if any of `regs` has a load in flight. */
    method FlushLoadTo(regs: set<Reg>)
      requires Valid() && Outer() != null
      modifies this`instrs, this`stack, Closing(), cur
      ensures Valid() && Outer() == old(Outer())
      ensures regs * old(cur.now.loads) != {} ==>
               && !Active() && instrs == old(View()) + [Wait({lsSlot})]
               && cur.now == IDLE
      ensures regs * old(cur.now.loads) == {} ==> Unchanged(old(stack), old(instrs), old(cur.now),
                                                            old(pending.endLabel.refs),
                                                            old(pending.endLabel.lastForwardRef),
                                                                old(pending.endLabel.target))
    {
      if regs * cur.now.loads != {} {
        WaitSlots({lsSlot});
      }
    }

    ghost predicate Unchanged(stack: Block?, instrs: seq<Instr>, now: Ls, refs: seq<nat>, last: int, target: int)
      reads this, cur, pending, pending.endLabel
    {
      && this.stack == stack && this.instrs == instrs && cur.now == now
      && pending.endLabel.refs == refs && pending.endLabel.lastForwardRef == last && pending.endLabel.target == target
    }

    /** Resolve the operands one after the other: at most one WAIT, before the instruction. */
    method FlushOperands(i: Instr)
      requires Valid() && Outer() != null
      modifies this`instrs, this`stack, Closing(), cur
      ensures Valid() && Outer() == old(Outer())
      ensures Clash(i, old(cur.now.loads)) ==> !Active() && instrs == old(View()) + [Wait({lsSlot})] && cur.now == IDLE
      ensures !Clash(i, old(cur.now.loads)) ==> Unchanged(old(stack), old(instrs), old(cur.now),
                                                          old(pending.endLabel.refs),
                                                         old(pending.endLabel.lastForwardRef),
                                                             old(pending.endLabel.target))
    {
      hide Patch, Chained, AllNear;
      var ops := Operands(i);
      if i.Run? {
        FlushLoads();
        return;
      }
      for k := 0 to |ops|
        invariant Valid() && Outer() == old(Outer())
        invariant if exists j :: 0 <= j < k && ops[j] * old(cur.now.loads) != {}
                  then !Active() && instrs == old(View()) + [Wait({lsSlot})] && cur.now == IDLE
                  else Unchanged(old(stack), old(instrs), old(cur.now), old(pending.endLabel.refs),
                                 old(pending.endLabel.lastForwardRef), old(pending.endLabel.target))
      {
        FlushLoadTo(ops[k]);
      }
    }

    method FlushLoads()
      requires Valid() && Outer() != null
      modifies this`instrs, this`stack, Closing(), cur
      ensures Valid() && Outer() == old(Outer())
      ensures old(cur.now.loads) != {} ==> !Active() && instrs == old(View()) + [Wait({lsSlot})] && cur.now == IDLE
      ensures old(cur.now.loads) == {} ==> Unchanged(old(stack), old(instrs), old(cur.now), old(pending.endLabel.refs),
                                                     old(pending.endLabel.lastForwardRef), old(pending.endLabel.target))
    {
      if cur.now.loads != {} {
        WaitSlots({lsSlot});
      }
    }

    method FlushStores()
      requires Valid() && Outer() != null
      modifies this`instrs, this`stack, Closing(), cur
      ensures Valid() && Outer() == old(Outer())
      ensures old(cur.now.stores) ==> !Active() && instrs == old(View()) + [Wait({lsSlot})] && cur.now == IDLE
      ensures !old(cur.now.stores) ==> Unchanged(old(stack), old(instrs), old(cur.now), old(pending.endLabel.refs),
                                                 old(pending.endLabel.lastForwardRef), old(pending.endLabel.target))
    {
      if cur.now.stores {
        WaitSlots({lsSlot});
      }
    }

    /** Any plain instruction: wait for its operands, emit it, and track the load or store it starts. */
    method EmitOp(i: Instr)
      requires Valid() && Outer() != null && Plain(i)
      modifies this`instrs, this`stack, Closing(), cur
      ensures Valid() && !Active() && stack == old(Outer())
      ensures var p := GenOp(lsSlot, i, old(cur.now));
              cur.now == p.tr && forall start :: Appended(instrs, old(View()), p.code, start)
    {
      hide Patch, Chained, AllNear;
      ghost var w := WaitIf(lsSlot, Clash(i, cur.now.loads), cur.now);
      FlushOperands(i);
      ghost var mid := View();
      assert mid == old(View()) + if Clash(i, old(cur.now.loads)) then [Wait({lsSlot})]
          else [] by { PatchNothing(instrs, |instrs|); }
      ghost var tr := cur.now;
      if i.Wait? {
        WaitSlots(i.slots);
      } else {
        Emit(i);
        match i
        case Load(base, _, mask, _) => cur.now := cur.now.(loads := cur.now.loads + Row(base, mask));
        case Store(_, _, mask, _) => cur.now := cur.now.(stores := cur.now.stores || true in mask);
        case _ =>
      }
      assert cur.now == After(lsSlot, i, tr);
      forall start ensures Appended(instrs, old(View()), GenOp(lsSlot, i, old(cur.now)).code, start) {
        AppendedOne(mid, i, Item.Emit(i, w.tr.loads), start);
        if Clash(i, old(cur.now.loads)) {
          AppendedOne(old(View()), Wait({lsSlot}), w.code[0], start);
          AppendedTwice(old(View()), mid, instrs, w.code, [Item.Emit(i, w.tr.loads)], start);
        } else {
          assert mid == old(View()) && [] + [Item.Emit(i, w.tr.loads)] == [Item.Emit(i, w.tr.loads)];
        }
      }
    }

    // ----- Blocks -------------------------------------------------------------------------------------

    /** Nothing has to be flushed to the stream before the next block is opened. A client that opens one
        right after an outermost `if` first closes that one with `FlushPendingIf`. */
    ghost predicate Calm()
      reads this, pending, pending.block
    {
      Active() ==> Outer() != null
    }

    method BlockStart(block: Block)
      requires Valid() && Calm() && block != pending.block
      modifies this`instrs, this`stack, Closing(), block
      ensures Valid() && !Active() && stack == block && block.next == old(Outer()) && instrs == old(View())
    {
      hide Patch, Chained, AllNear, Chunks.CommandStream.Valid;
      PatchNothing(instrs, |instrs|);
      FlushPendingIf();
      block.next := stack;
      stack := block;
    }

    /** The outermost block is copied to the stream when it ends. */
    method BlockEnd(block: Block)
      requires Valid() && Outer() == block && block != pending.block && block.next != pending.block
      requires block.next == null ==> Copyable()
      modifies this`instrs, this`stack, Closing(), if block.next == null then FlushFrame() + {this} else {}
      ensures Valid() && !Active() && stack == block.next && cur == old(cur)
      ensures block.next != null ==> instrs == old(View())
      ensures block.next == null ==> Copied(old(View()), old(ips), old(out.Stream()), old(out.invalid))
                                     && Chunks.Extends(out.parts, old(out.parts)) && old(out.mems) <= out.mems
      ensures block.next == null ==>
                out.SpaceLeft() == Chunks.Behind(old(out.SpaceLeft()), |old(View())|, |old(View())| in old(ips))
      ensures block.next == null && !out.invalid ==>
               pendingMaybes
               == (if old(View()) == [] then old(pendingMaybes) else [])
      ensures block.next == null && !out.invalid ==>
                forall m :: m in old(pendingMaybes) && 0 < |m.instrs| && m.patchPos + |m.instrs| <= |old(View())| ==>
                  m.At(out, |old(out.Stream())| + m.patchPos)
    {
      hide Chunks.CommandStream.Valid, Chunks.Flatten, Chunks.Extends, Patch, Chained, AllNear, WithIps, IpChained,
           CopiedTo;
      PatchNothing(instrs, |instrs|);
      FlushPendingIf();
      stack := block.next;
      IpsInside(instrs, ips, lastLoadIpTarget);
      FlushBlockInstrs();
    }

    /** The block under construction can be closed and copied. */
    ghost predicate Copyable()
      reads this, pending, pending.endLabel, out, out.mems
    {
      && out.Valid()
      && |instrs| < W32 && (out.allocates ==> |instrs| + 1 <= out.largest)
      && (!out.invalid ==> IpChained(View(), ips, lastLoadIpTarget))
    }

    /** What closing the outermost block needs when `whole` is what it will be. */
    ghost predicate Closable(whole: seq<Instr>)
      reads this`ips, this`lastLoadIpTarget, out, out.mems
    {
      && out.Valid()
      && |whole| < W32 && (out.allocates ==> |whole| + 1 <= out.largest)
      && (!out.invalid ==> IpChained(whole, ips, lastLoadIpTarget))
    }

    ghost function Sending(): Sending
      reads this`ips, out
    {
      Before(ips, if Chunks.Sized(out.parts) then out.Stream() else [], out.invalid, out.parts, out.mems,
             out.SpaceLeft())
    }

    /** Since then the outermost block, `whole`, has gone to the stream, with the maybe blocks `ms`. */
    ghost predicate Sent(whole: seq<Instr>, ms: seq<MaybeBlock>, was: Sending)
      reads this`instrs, this`ips, this`lastLoadIpTarget, this`pendingMaybes, out, out.mems, ms
    {
      && Copied(whole, was.ips, was.stream, was.invalid)
      && Chunks.Extends(out.parts, was.parts) && was.mems <= out.mems
      && out.SpaceLeft() == Chunks.Behind(was.space, |whole|, |whole| in was.ips)
      && (!out.invalid ==>
            && pendingMaybes == (if whole == [] then ms else [])
            && forall m :: m in ms && 0 < |m.instrs| && m.patchPos + |m.instrs| <= |whole| ==>
                 m.At(out, |was.stream| + m.patchPos))
    }

    lemma StillClosable(whole: seq<Instr>, refs: seq<nat>)
      requires Closable(whole)
      ensures Closable(Patch(whole, refs, |whole|))
    {
      hide Patch, IpChained;
      IpsSurvivePatch(whole, ips, lastLoadIpTarget, refs, |whole|);
    }

    /** A block ends. */
    method Leave(block: Block)
      requires Valid() && Outer() == block && block != pending.block && block.next != pending.block
      requires block.next == null ==> Closable(View())
      modifies this`instrs, this`stack, Closing(), if block.next == null then FlushFrame() + {this} else {}
      ensures Valid() && !Active() && stack == block.next && cur == old(cur)
      ensures if block.next != null then instrs == View() == old(View())
              else Sent(old(View()), old(pendingMaybes), old(Sending()))
    {
      hide Chunks.CommandStream.Valid, Chunks.Flatten, Chunks.Extends, Patch, Chained, AllNear, WithIps, IpChained,
           CopiedTo;
      PatchNothing(instrs, |instrs|);
      BlockEnd(block);
      PatchNothing(instrs, |instrs|);
    }

    /** The outermost block has gone to the stream, unless the stream is out of memory. */
    ghost predicate Copied(block: seq<Instr>, blockIps: seq<nat>, before: seq<Instr>, invalid: bool)
      reads this`instrs, this`ips, this`lastLoadIpTarget, out, out.mems
    {
      && out.Valid() && (invalid ==> out.invalid)
      && (!out.invalid ==>
          && instrs == [] && ips == [] && lastLoadIpTarget == 0
          && if block == [] then out.Stream() == before else CopiedTo(block, blockIps, before))
    }
  }

  /** The newest LOAD_IP is the one that can be the last instruction. */
  lemma LastIp(instrs: seq<Instr>, ips: seq<nat>, last: nat)
    ensures IpChained(instrs, ips, last) && instrs != [] ==> (last >= |instrs| <==> |instrs| in ips)
  {
    assert IpChained(instrs, ips, last) && ips != [] ==> last in ips && forall k :: 0 <= k < |ips| ==> ips[k] <= last;
  }

  lemma IpsInside(instrs: seq<Instr>, ips: seq<nat>, last: nat)
    ensures instrs == [] && IpChained(instrs, ips, last) ==> ips == [] && last == 0
  {
    assert IpChained(instrs, ips, last) && ips != [] ==> 0 < ips[0] <= |instrs|;
  }

  lemma IpsSurviveCode(now: seq<Instr>, before: seq<Instr>, ips: seq<nat>, last: nat)
    requires |before| <= |now| && now[..|before|] == before
    ensures IpChained(before, ips, last) ==> IpChained(now, ips, last)
  {
    hide IpBefore;
    if IpChained(before, ips, last) {
      forall k | 0 <= k < |ips| ensures now[ips[k] - 1] == before[ips[k] - 1] {
        assert now[..|before|][ips[k] - 1] == now[ips[k] - 1];
      }
    }
  }

  lemma IpsSurvivePatch(instrs: seq<Instr>, ips: seq<nat>, last: nat, refs: seq<nat>, target: nat)
    ensures IpChained(instrs, ips, last) ==> IpChained(Patch(instrs, refs, target), ips, last)
  {
    hide Patch, IpBefore;
    if IpChained(instrs, ips, last) {
      var p := Patch(instrs, refs, target);
      PatchKeepsMoves(instrs, refs, target);
      forall k | 0 <= k < |ips| ensures p[ips[k] - 1] == instrs[ips[k] - 1] {}
    }
  }

  lemma PatchKeepsMoves(instrs: seq<Instr>, refs: seq<nat>, target: nat)
    ensures forall i :: 0 <= i < |instrs| && !instrs[i].Branch? ==> Patch(instrs, refs, target)[i] == instrs[i]
  {
  }
}
