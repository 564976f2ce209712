/** From a structured program to chunks of memory, and back to what the program means. */
module Program {
  import opened Isa
  import opened Structured
  import opened Labels
  import opened B = Builder
  import opened Constructs
  import Chunks
  import Driver
  import Outermost
  import Linking
  import Preservation
  import Tidy
  import Maybes
  import opened Handles
  import opened S = Sequences
  import Spaces
  import Orders
  import opened P = Patching

  /** The builder is between blocks; maybe blocks with nothing in them may still be waiting for a place. */
  ghost predicate Idling(b: Builder)
    reads b, b.pending, b.pending.block, b.pending.endLabel
  {
    && b.Valid() && b.stack == null && b.instrs == [] && b.ips == [] && b.lastLoadIpTarget == 0
    && forall m :: m in b.pendingMaybes ==> m.instrs == []
  }

  /** The context between blocks. */
  ghost function Now(b: Builder): Structured.Ctx
    reads b, b.cur, b.pending, b.pending.lsState
  {
    Structured.Ctx(b.cur.now, b.pending.lsState.now, false)
  }

  /** A program the builder accepts as one block, in the context `g`. */
  ghost predicate Compilable(b: Builder, s: Stmt, g: Structured.Ctx) {
    var o := Gen(b.lsSlot, s, g, IDLE);
    && WellFormed(s, false, false) && o.ok && Driver.Fits(b.lsSlot, s, g, IDLE, 0, |o.code|, 0)
    && |o.code| < W32 && (b.out.allocates ==> |o.code| + 1 <= b.out.largest)
  }

  lemma AppendedIsFinish(now: seq<Instr>, code: seq<Item>)
    requires Appended(now, [], code, 0) && Tidy.Exits(code, false, false)
    ensures now == Preservation.Finish(code)
  {
    forall i | 0 <= i < |code| ensures now[i] == Preservation.Finish(code)[i] {
      assert Matches(now[0 + i], code[i], 0 + i, 0);
    }
  }

  /** Open the block a program goes into. The loop is storage that nothing will refer to. */
  method OpenBlock(b: Builder, ghost o: Out) returns (block: Block, lp: Loop)
    requires Idling(b) && o.ok
    modifies b`instrs, b`stack, b.Closing()
    ensures fresh(block) && fresh(lp) && fresh(lp.start) && fresh(lp.end) && lp.orig != null && fresh(lp.orig)
    ensures block.next == null && b.Outer() == block && !b.Active() && b.View() == [] && lp.origCopy == IDLE
    ensures lp.start.target == 0 && lp.end.refs == []
    ensures Driver.Ready(b, lp, o, |o.code|)
  {
    hide Patch, Chained, AllNear;
    PatchNothing([], 0);
    block := new Block();
    b.BlockStart(block);
    lp := new Loop(Always, Val(0, false));
    var tracker := new LsTracker(IDLE);
    lp.start.target := 0;
    lp.orig := tracker;
    ChainedNone(b.instrs, |o.code|);
  }

  /** Build the block of a program, up to where it is closed. */
  method BuildBlock(b: Builder, s: Stmt) returns (block: Block)
    requires Idling(b) && Compilable(b, s, Now(b))
    modifies b`instrs, b`stack, b`cur, b`pendingMaybes, b.cur, b.pending, b.pending.block, b.pending.endLabel,
             b.pending.lsState
    ensures fresh(block) && block.next == null && b.Valid() && b.Outer() == block && b.cur == old(b.cur)
    ensures forall m :: m in b.pendingMaybes ==> m in old(b.pendingMaybes) || fresh(m)
    ensures Driver.Adds(b.pendingMaybes, old(b.pendingMaybes), Kept(b.lsSlot, s, old(Now(b)), IDLE, 0, 0))
    ensures var o := Gen(b.lsSlot, s, old(Now(b)), IDLE);
            b.View() == Preservation.Finish(o.code) && b.Ctx() == o.ctx
  {
    hide Gen, Driver.Fits, Driver.Ready, WellFormed, Patch, Appended, EndRefs, Tidy.Exits, Inside, Kept, Driver.Adds;
    ghost var o := Gen(b.lsSlot, s, Now(b), IDLE);
    var lp;
    block, lp := OpenBlock(b, o);
    Driver.EmitStmt(b, s, lp, false, false, |o.code|);
    Tidy.CodeExits(b.lsSlot, s, false, false, old(Now(b)), IDLE);
    AppendedIsFinish(b.View(), o.code);
  }

  /** A new stream and a builder for it: nothing has been recorded, and recording can begin. */
  method NewRecording(nrRegisters: nat, allocates: bool, buffer: Chunks.Buffer, supply: seq<Chunks.Buffer>,
                      ghost largest: nat, lsSlot: nat)
    returns (b: Builder)
    requires nrRegisters >= Chunks.LINK && (allocates || buffer.Buffer?)
    requires Chunks.Apart(Chunks.RootMems(buffer), Chunks.RootParts(buffer), supply)
    requires allocates ==> (Chunks.Roomy(supply, largest) && (buffer.Buffer? ==> buffer.cpu.Length >= Chunks.LINK))
    ensures fresh(b) && fresh(b.out) && b.lsSlot == lsSlot && b.out.largest == largest && b.out.allocates == allocates
    ensures Idling(b) && Now(b) == FRESH && b.pendingMaybes == []
    ensures b.out.Valid() && !b.out.invalid && b.out.Stream() == [] && b.out.supply == supply
    ensures b.out.nrRegisters == nrRegisters && Sound(nrRegisters, b.out.parts)
    ensures b.out.SpaceLeft() == Chunks.Space.Space(
              if buffer.NoBuffer? then -1
              else buffer.cpu.Length - (if allocates then Chunks.LINK + 1 else 0),
              if allocates then supply else [])
  {
    hide Chunks.Apart, Chunks.Roomy, Chunks.Flatten;
    var out := new Chunks.CommandStream(nrRegisters, allocates, buffer, supply, largest);
    b := new Builder(out, lsSlot);
  }

  // ----- Chunks of whole blocks ---------------------------------------------------------------------

  /** The code of every chunk stands on its own: no branch leaves it, no instruction uses the builder's registers. */
  ghost predicate Sound(nr: nat, parts: seq<Chunks.Part>) {
    && nr >= Chunks.LINK && Chunks.Sized(parts)
    && forall k :: 0 <= k < |parts| ==> SoundCode(nr, Chunks.Code(parts[k]))
  }

  ghost predicate SoundCode(nr: nat, code: seq<Instr>)
    requires nr >= Chunks.LINK
  {
    Linking.Closed(code) && Linking.AllBelow(code, Chunks.LenReg(nr))
  }

  lemma SoundConcat(nr: nat, a: seq<Instr>, b: seq<Instr>)
    requires nr >= Chunks.LINK && SoundCode(nr, a) && SoundCode(nr, b)
    ensures SoundCode(nr, a + b)
  {
  }

  /** Chunk `k` is the stretch of the stream at its position. */
  lemma {:induction false} Stretch(parts: seq<Chunks.Part>, k: nat)
    requires Chunks.Sized(parts) && k < |parts|
    ensures var at := Chunks.StreamPos(parts, k, 0);
            && at + parts[k].size <= |Chunks.Flatten(parts)|
            && Chunks.Code(parts[k]) == Chunks.Flatten(parts)[at..at + parts[k].size]
            && (k + 1 < |parts| ==> Chunks.StreamPos(parts, k + 1, 0) == at + parts[k].size)
            && (k + 1 == |parts| ==> at + parts[k].size == |Chunks.Flatten(parts)|)
    decreases |parts|
  {
    var n := |parts| - 1;
    if k < n {
      Stretch(parts[..n], k);
      assert parts[..n][..k] == parts[..k];
      if k + 1 < n { assert parts[..n][..k + 1] == parts[..k + 1]; }
    }
  }

  lemma StretchOrder(parts: seq<Chunks.Part>, j: nat, k: nat)
    requires Chunks.Sized(parts) && j < k < |parts|
    ensures Chunks.StreamPos(parts, j, 0) + parts[j].size <= Chunks.StreamPos(parts, k, 0)
    decreases k
  {
    Stretch(parts, j);
    Stretch(parts, k - 1);
    if j < k - 1 { StretchOrder(parts, j, k - 1); }
  }

  /** No block is split: when one has been added in one piece, every chunk still holds whole blocks. */
  lemma BlockAdded(nr: nat, was: seq<Chunks.Part>, now: seq<Chunks.Part>, block: seq<Instr>)
    requires Sound(nr, was) && Chunks.Sized(now) && Chunks.Extends(now, was) && SoundCode(nr, block)
    requires now != [] && Chunks.Flatten(now) == Chunks.Flatten(was) + block && |block| <= now[|now| - 1].size
    ensures Sound(nr, now)
  {
    hide Chunks.Flatten, SoundCode, Chunks.StreamPos, Chunks.Code;
    var n := |now| - 1;
    forall k | 0 <= k <= n ensures SoundCode(nr, Chunks.Code(now[k])) { ChunkSound(nr, was, now, block, k); }
  }

  lemma ChunkSound(nr: nat, was: seq<Chunks.Part>, now: seq<Chunks.Part>, block: seq<Instr>, k: nat)
    requires Sound(nr, was) && Chunks.Sized(now) && Chunks.Extends(now, was) && SoundCode(nr, block)
    requires Chunks.Flatten(now) == Chunks.Flatten(was) + block && now != [] && |block| <= now[|now| - 1].size
    requires k < |now|
    ensures SoundCode(nr, Chunks.Code(now[k]))
  {
    hide Chunks.Flatten, SoundCode, Chunks.StreamPos, Chunks.Code;
    if k < |was| && k < |now| - 1 {
      EarlierChunk(nr, was, now, block, k);
    } else if k < |was| {
      SameChunk(nr, was, now, block, k);
    } else {
      LaterChunk(nr, was, now, block, k);
    }
  }

  lemma Slices(a: seq<Instr>, b: seq<Instr>, i: nat, j: nat)
    ensures i <= j <= |a| ==> (a + b)[i..j] == a[i..j]
    ensures i <= |a| && j == |a + b| ==> (a + b)[i..j] == a[i..|a|] + b
  {
  }

  /** A chunk that was not the one the block went to. */
  lemma EarlierChunk(nr: nat, was: seq<Chunks.Part>, now: seq<Chunks.Part>, block: seq<Instr>, k: nat)
    requires nr >= Chunks.LINK && Chunks.Sized(was) && Chunks.Sized(now) && Chunks.Extends(now, was)
    requires SoundCode(nr, block)
    requires Chunks.Flatten(now) == Chunks.Flatten(was) + block && now != [] && |block| <= now[|now| - 1].size
    requires k < |was| && k < |now| - 1 && SoundCode(nr, Chunks.Code(was[k]))
    ensures Chunks.Code(now[k]) == Chunks.Code(was[k]) && SoundCode(nr, Chunks.Code(now[k]))
  {
    hide Chunks.Flatten, SoundCode, Chunks.StreamPos, Chunks.Code, Chunks.Extends, Chunks.Sized;
    Positions(now, was, k);
    Stretch(now, k);
    Stretch(now, |now| - 1);
    StretchOrder(now, k, |now| - 1);
    Stretch(was, k);
    if k + 1 < |was| { Positions(now, was, k + 1); }
    var at := Chunks.StreamPos(was, k, 0);
    assert now[k].size == was[k].size;
    Slices(Chunks.Flatten(was), block, at, at + now[k].size);
  }

  lemma Positions(now: seq<Chunks.Part>, was: seq<Chunks.Part>, k: nat)
    requires Chunks.Extends(now, was) && k < |was|
    ensures k < |now| && Chunks.StreamPos(now, k, 0) == Chunks.StreamPos(was, k, 0) && was[k].size <= now[k].size
  {
  }

  /** The block went behind the code of the chunk that was the last. */
  lemma SameChunk(nr: nat, was: seq<Chunks.Part>, now: seq<Chunks.Part>, block: seq<Instr>, k: nat)
    requires nr >= Chunks.LINK && Chunks.Sized(was) && Chunks.Sized(now) && Chunks.Extends(now, was)
    requires SoundCode(nr, block)
    requires Chunks.Flatten(now) == Chunks.Flatten(was) + block && now != [] && |block| <= now[|now| - 1].size
    requires k < |was| && k == |now| - 1 && SoundCode(nr, Chunks.Code(was[k]))
    ensures Chunks.Code(now[k]) == Chunks.Code(was[k]) + block && SoundCode(nr, Chunks.Code(now[k]))
  {
    hide Chunks.Flatten, SoundCode, Chunks.StreamPos, Chunks.Code;
    assert |was| == |now|;
    hide Chunks.Extends;
    Positions(now, was, k);
    Stretch(now, k);
    Stretch(was, k);
    Tail(Chunks.Flatten(was), block, Chunks.StreamPos(was, k, 0));
    SoundConcat(nr, Chunks.Code(was[k]), block);
  }

  lemma Tail(a: seq<Instr>, b: seq<Instr>, i: nat)
    requires i <= |a|
    ensures (a + b)[i..|a + b|] == a[i..|a|] + b
  {
  }

  /** The block went into a new chunk; one opened before it was found too small stays empty. */
  lemma LaterChunk(nr: nat, was: seq<Chunks.Part>, now: seq<Chunks.Part>, block: seq<Instr>, k: nat)
    requires nr >= Chunks.LINK && Chunks.Sized(was) && Chunks.Sized(now) && Chunks.Extends(now, was)
    requires SoundCode(nr, block)
    requires Chunks.Flatten(now) == Chunks.Flatten(was) + block && now != [] && |block| <= now[|now| - 1].size
    requires |was| <= k < |now|
    ensures SoundCode(nr, Chunks.Code(now[k]))
  {
    hide Chunks.Flatten, SoundCode, Chunks.StreamPos, Chunks.Code, Chunks.Extends, Chunks.Sized;
    var n := |now| - 1;
    Behind(now, was, k);
    Stretch(now, k);
    Stretch(now, n);
    if k < n {
      StretchOrder(now, k, n);
      SoundNothing(nr);
      EmptySlice(Chunks.Flatten(now), Chunks.StreamPos(now, k, 0), now[k].size);
    } else {
      Slices(Chunks.Flatten(was), block, |Chunks.Flatten(was)|, |Chunks.Flatten(now)|);
      assert Chunks.Flatten(was)[|Chunks.Flatten(was)|..] + block == block;
    }
  }

  lemma EmptySlice(a: seq<Instr>, at: nat, n: nat)
    requires n == 0 && at <= |a|
    ensures a[at..at + n] == []
  {
  }

  /** A new chunk is behind everything there was. */
  lemma Behind(now: seq<Chunks.Part>, was: seq<Chunks.Part>, k: nat)
    requires Chunks.Sized(was) && Chunks.Sized(now) && Chunks.Extends(now, was) && |was| <= k < |now|
    ensures Chunks.StreamPos(now, k, 0) >= |Chunks.Flatten(was)|
  {
    hide Chunks.Flatten, Chunks.StreamPos, Chunks.Extends, Chunks.Sized;
    var m := |was|;
    if m > 0 {
      Stretch(was, m - 1);
      Positions(now, was, m - 1);
      StretchOrder(now, m - 1, k);
    } else {
      EmptyFlat(was);
    }
  }

  lemma EmptyFlat(parts: seq<Chunks.Part>)
    requires parts == []
    ensures Chunks.Flatten(parts) == []
  {
  }

  lemma SoundNothing(nr: nat)
    requires nr >= Chunks.LINK
    ensures SoundCode(nr, [])
  {
  }

  // ----- Recording a program ------------------------------------------------------------------------

  lemma StillSound(nr: nat, was: seq<Chunks.Part>, now: seq<Chunks.Part>, block: seq<Instr>)
    requires Sound(nr, was) && Chunks.Sized(now) && Chunks.Extends(now, was) && SoundCode(nr, block)
    requires Chunks.Flatten(now) == Chunks.Flatten(was) + block
    requires block != [] ==> now != [] && |block| <= now[|now| - 1].size
    ensures Sound(nr, now)
  {
    hide Chunks.Flatten, SoundCode;
    if now != [] { BlockAdded(nr, was, now, block); }
  }

  /** A stretch of the stream is in one chunk. */
  ghost predicate InOneChunk(parts: seq<Chunks.Part>, pos: nat, n: nat) {
    n == 0 || exists k :: Contains(parts, k, pos, n)
  }

  ghost predicate Contains(parts: seq<Chunks.Part>, k: nat, pos: nat, n: nat) {
    && Chunks.Sized(parts) && k < |parts| && Chunks.StreamPos(parts, k, 0) <= pos
    && pos + n <= Chunks.StreamPos(parts, k, 0) + parts[k].size
  }

  lemma StaysInOneChunk(now: seq<Chunks.Part>, was: seq<Chunks.Part>, pos: nat, n: nat)
    requires Chunks.Extends(now, was) && InOneChunk(was, pos, n)
    ensures InOneChunk(now, pos, n)
  {
    hide Chunks.StreamPos;
    if n != 0 {
      var k :| Contains(was, k, pos, n);
      assert Contains(now, k, pos, n);
    }
  }

  lemma LastChunkHolds(parts: seq<Chunks.Part>, n: nat)
    requires Chunks.Sized(parts) && (n != 0 ==> parts != [] && n <= parts[|parts| - 1].size)
    ensures n <= |Chunks.Flatten(parts)| && InOneChunk(parts, |Chunks.Flatten(parts)| - n, n)
  {
    hide Chunks.StreamPos, Chunks.Flatten;
    if n != 0 {
      Stretch(parts, |parts| - 1);
      assert Contains(parts, |parts| - 1, |Chunks.Flatten(parts)| - n, n);
    }
  }

  /** The maybe blocks of a block that begins at `pos` of the stream, unless there is nothing in them. */
  ghost predicate Located(ms: seq<MaybeBlock>, out: Chunks.CommandStream, pos: nat)
    reads out, ms
  {
    forall i :: 0 <= i < |ms| && ms[i].instrs != [] ==> ms[i].At(out, pos + ms[i].patchPos)
  }

  /** Close an outermost block that stands on its own. */
  method CopyBlock(b: Builder, block: Block)
    requires b.Valid() && b.Outer() == block && block.next == null && block != b.pending.block && b.ips == []
    requires b.lastLoadIpTarget == 0
    requires b.out.Valid() && Sound(b.out.nrRegisters, b.out.parts) && SoundCode(b.out.nrRegisters, b.View())
    requires |b.View()| < W32 && (b.out.allocates ==> |b.View()| + 1 <= b.out.largest)
    modifies b, b.Closing(), b.FlushFrame()
    ensures b.out.Valid() && (old(b.out.invalid) ==> b.out.invalid) && b.cur == old(b.cur)
    ensures Chunks.Extends(b.out.parts, old(b.out.parts)) && old(b.out.mems) <= b.out.mems
    ensures b.out.SpaceLeft() == Chunks.Taken(old(b.out.SpaceLeft()), |old(b.View())|)
    ensures !b.out.invalid ==>
              && b.out.Stream() == old(b.out.Stream()) + old(b.View())
              && b.Valid() && b.stack == null && b.instrs == [] && b.ips == [] && b.lastLoadIpTarget == 0
              && b.pendingMaybes == (if old(b.View()) == [] then old(b.pendingMaybes) else [])
              && Sound(b.out.nrRegisters, b.out.parts)
              && InOneChunk(b.out.parts, |old(b.out.Stream())|, |old(b.View())|)
              && forall m :: (m in old(b.pendingMaybes) && 0 < |m.instrs|
                              && m.patchPos + |m.instrs| <= |old(b.View())|) ==>
                   m.At(b.out, |old(b.out.Stream())| + m.patchPos)
  {
    hide Patch, Chained, AllNear, Sound, SoundCode, Chunks.CommandStream.Valid, Chunks.Flatten, Chunks.Extends,
         IpChained, WithIps, InOneChunk, Chunks.Taken, Chunks.CommandStream.SpaceLeft;
    hide Builder.Sent;
    ghost var whole, ms, was := b.View(), b.pendingMaybes, b.Sending();
    NoIps(whole);
    b.Leave(block);
    SentPlain(b, whole, ms, was);
  }

  /** What has been sent is at the end of the stream, in one chunk, and still every chunk stands on its own. */
  lemma SentPlain(b: Builder, whole: seq<Instr>, ms: seq<MaybeBlock>, was: Sending)
    requires b.Sent(whole, ms, was) && was.ips == [] && Sound(b.out.nrRegisters, was.parts)
    requires SoundCode(b.out.nrRegisters, whole) && was.stream == Chunks.Flatten(was.parts)
    ensures b.out.Valid() && (was.invalid ==> b.out.invalid)
    ensures Chunks.Extends(b.out.parts, was.parts) && was.mems <= b.out.mems
    ensures b.out.SpaceLeft() == Chunks.Taken(was.space, |whole|)
    ensures !b.out.invalid ==>
              && b.out.Stream() == was.stream + whole
              && b.instrs == [] && b.ips == [] && b.lastLoadIpTarget == 0
              && b.pendingMaybes == (if whole == [] then ms else [])
              && Sound(b.out.nrRegisters, b.out.parts)
              && InOneChunk(b.out.parts, |was.stream|, |whole|)
              && forall m :: (m in ms && 0 < |m.instrs| && m.patchPos + |m.instrs| <= |whole|) ==>
                   m.At(b.out, |was.stream| + m.patchPos)
  {
    hide Patch, Chained, AllNear, Sound, SoundCode, Chunks.CommandStream.Valid, Chunks.Flatten, Chunks.Extends,
         IpChained, WithIps, InOneChunk, Chunks.Taken, Chunks.CommandStream.SpaceLeft;
    if !b.out.invalid {
      SizedNow(b.out);
      b.CopiedPlain(whole, was.stream);
      SoundSized(b.out.nrRegisters, was.parts);
      StillSound(b.out.nrRegisters, was.parts, b.out.parts, whole);
      LastChunkHolds(b.out.parts, |whole|);
    }
  }

  lemma SoundSized(nr: nat, parts: seq<Chunks.Part>)
    requires Sound(nr, parts)
    ensures nr >= Chunks.LINK && Chunks.Sized(parts)
  {
  }

  lemma NoIps(instrs: seq<Instr>)
    ensures IpChained(instrs, [], 0)
  {
  }

  /** A program is built as one block and copied to the stream. Its maybe blocks are returned, the latest to be
      closed first. */
  method Compile(b: Builder, s: Stmt) returns (ms: seq<MaybeBlock>)
    requires Idling(b) && Compilable(b, s, Now(b)) && b.out.Valid() && Sound(b.out.nrRegisters, b.out.parts)
    requires Tidy.UsesBelow(s, Chunks.LenReg(b.out.nrRegisters))
    modifies b, b.cur, b.pending, b.pending.block, b.pending.endLabel, b.pending.lsState, b.FlushFrame()
    ensures b.out.Valid() && (old(b.out.invalid) ==> b.out.invalid) && b.cur == old(b.cur)
    ensures Chunks.Extends(b.out.parts, old(b.out.parts)) && old(b.out.mems) <= b.out.mems
    ensures Driver.Adds(ms, [], Kept(b.lsSlot, s, old(Now(b)), IDLE, 0, 0)) && (!b.out.invalid ==> Driver.OnlyOwn(b))
    ensures var o := Gen(b.lsSlot, s, old(Now(b)), IDLE);
            && Now(b) == S.Between(o.ctx)
            && b.out.SpaceLeft() == Chunks.Taken(old(b.out.SpaceLeft()), |o.code|)
            && (!b.out.invalid ==>
                  && b.out.Stream() == old(b.out.Stream()) + Preservation.Finish(o.code)
                  && Idling(b) && Sound(b.out.nrRegisters, b.out.parts)
                  && Located(ms, b.out, |old(b.out.Stream())|)
                  && InOneChunk(b.out.parts, |old(b.out.Stream())|, |o.code|))
  {
    hide Gen, Driver.Fits, WellFormed, Patch, Sound, Chunks.CommandStream.Valid, Chunks.Flatten, Tidy.UsesBelow,
         Linking.Closed, Linking.AllBelow, Kept, Chunks.Extends, InOneChunk, Orders.Nested, Chained, AllNear, IpChained,
         WithIps, Driver.Adds;
    ghost var g := Now(b);
    var n := |b.pendingMaybes|;
    var block := BuildBlock(b, s);
    Tidy.FinishedTidy(b.lsSlot, s, g, IDLE, Chunks.LenReg(b.out.nrRegisters));
    KeptInside(b.lsSlot, s, g, old(b.pendingMaybes), b.pendingMaybes);
    ms := b.pendingMaybes[..|b.pendingMaybes| - n];
    CopyBlock(b, block);
  }

  /** A construct outside any block: the same, as if it stood in a block of its own. */
  method EmitBare(b: Builder, s: Stmt) returns (ms: seq<MaybeBlock>)
    requires Idling(b) && Compilable(b, s, Now(b)) && b.out.Valid() && Sound(b.out.nrRegisters, b.out.parts)
    requires Tidy.UsesBelow(s, Chunks.LenReg(b.out.nrRegisters)) && Outermost.Construct(s)
    modifies b, b.cur, b.pending, b.pending.block, b.pending.endLabel, b.pending.lsState, b.FlushFrame()
    ensures b.out.Valid() && (old(b.out.invalid) ==> b.out.invalid) && b.cur == old(b.cur)
    ensures Chunks.Extends(b.out.parts, old(b.out.parts)) && old(b.out.mems) <= b.out.mems
    ensures Driver.Adds(ms, [], Kept(b.lsSlot, s, old(Now(b)), IDLE, 0, 0)) && (!b.out.invalid ==> Driver.OnlyOwn(b))
    ensures var o := Gen(b.lsSlot, s, old(Now(b)), IDLE);
            && Now(b) == S.Between(o.ctx)
            && b.out.SpaceLeft() == Chunks.Taken(old(b.out.SpaceLeft()), |o.code|)
            && (!b.out.invalid ==>
                  && b.out.Stream() == old(b.out.Stream()) + Preservation.Finish(o.code)
                  && Idling(b) && Sound(b.out.nrRegisters, b.out.parts)
                  && Located(ms, b.out, |old(b.out.Stream())|)
                  && InOneChunk(b.out.parts, |old(b.out.Stream())|, |o.code|))
  {
    hide Gen, Driver.Fits, WellFormed, Patch, Sound, SoundCode, Chunks.CommandStream.Valid, Chunks.Flatten,
         Tidy.UsesBelow, Linking.Closed, Linking.AllBelow, Kept, Chunks.Extends, InOneChunk, Orders.Nested, Chained,
         AllNear, IpChained, WithIps, Driver.Adds, Builder.Sent, Tidy.Exits, Appended,
         Chunks.CommandStream.SpaceLeft, Chunks.Taken, Chunks.Behind;
    ghost var g, was, o := Now(b), b.Sending(), Gen(b.lsSlot, s, Now(b), IDLE);
    var n := |b.pendingMaybes|;
    ghost var whole;
    var all;
    whole, all := Outermost.EmitConstruct(b, s);
    Tidy.CodeExits(b.lsSlot, s, false, false, g, IDLE);
    AppendedIsFinish(whole, o.code);
    FinishedSound(b.lsSlot, s, g, b.out.nrRegisters, was.parts);
    KeptInside(b.lsSlot, s, g, old(b.pendingMaybes), all);
    ms := all[..|all| - n];
    SentPlain(b, whole, all, was);
  }

  lemma FinishedSound(ls: nat, s: Stmt, g: Structured.Ctx, nr: nat, parts: seq<Chunks.Part>)
    requires Sound(nr, parts) && WellFormed(s, false, false) && nr >= Chunks.LINK
    requires Tidy.UsesBelow(s, Chunks.LenReg(nr))
    ensures SoundCode(nr, Preservation.Finish(Gen(ls, s, g, IDLE).code))
  {
    hide Gen, WellFormed, Tidy.UsesBelow, Linking.Closed, Linking.AllBelow;
    Tidy.FinishedTidy(ls, s, g, IDLE, Chunks.LenReg(nr));
  }

  /** The maybe blocks of a program are inside its code. */
  lemma KeptInside(ls: nat, s: Stmt, g: Structured.Ctx, was: seq<MaybeBlock>, now: seq<MaybeBlock>)
    requires Driver.Adds(now, was, Kept(ls, s, g, IDLE, 0, 0))
    ensures var n := |now| - |was|;
            && 0 <= n && Driver.Adds(now[..n], [], Kept(ls, s, g, IDLE, 0, 0)) && now == now[..n] + was
            && forall m :: m in now[..n] ==> m.patchPos + |m.instrs| <= |Gen(ls, s, g, IDLE).code|
  {
    hide Gen, Kept;
    P.KeptNested(ls, s, g, IDLE, 0, 0);
    var n := |now| - |was|;
    forall m | m in now[..n] ensures m.patchPos + |m.instrs| <= |Gen(ls, s, g, IDLE).code| {
      var i :| 0 <= i < n && now[i] == m;
    }
  }

  /** One instruction straight into the stream. */
  method EmitOne(b: Builder, i: Instr)
    requires Idling(b) && b.out.Valid() && Sound(b.out.nrRegisters, b.out.parts)
    requires (b.out.allocates ==> 1 <= b.out.largest)
    requires Plain(i) && Linking.Below(i, Chunks.LenReg(b.out.nrRegisters))
    modifies b, b.out, b.out.buffers, set m | m in b.pendingMaybes
    ensures Idling(b) && b.cur == old(b.cur) && b.pendingMaybes == old(b.pendingMaybes)
    ensures b.out.Valid() && (old(b.out.invalid) ==> b.out.invalid)
    ensures b.out.SpaceLeft() == Chunks.Taken(old(b.out.SpaceLeft()), 1)
    ensures Chunks.Extends(b.out.parts, old(b.out.parts)) && old(b.out.mems) <= b.out.mems
    ensures !b.out.invalid ==> b.out.Stream() == old(b.out.Stream()) + [i] && Sound(b.out.nrRegisters, b.out.parts)
  {
    hide Chunks.CommandStream.Valid, Chunks.Flatten, Chunks.Extends, Sound, SoundCode, Patch, Chained, AllNear,
         Chunks.Behind, Chunks.Taken, Chunks.CommandStream.SpaceLeft;
    Chunks.BehindNothing(b.out.SpaceLeft());
    ghost var was, before := b.out.parts, b.View();
    PatchNothing(b.instrs, |b.instrs|);
    b.EmitToStream(i);
    SoundSized(b.out.nrRegisters, was);
    SoundOne(b.out.nrRegisters, i);
    if !b.out.invalid {
      assert b.out.Stream() == old(b.out.Stream()) + before + [i];
      SizedNow(b.out);
      StillSound(b.out.nrRegisters, was, b.out.parts, [i]);
    }
  }

  lemma SoundOne(nr: nat, i: Instr)
    requires nr >= Chunks.LINK && Plain(i) && Linking.Below(i, Chunks.LenReg(nr))
    ensures SoundCode(nr, [i])
  {
  }

  lemma SizedNow(out: Chunks.CommandStream)
    requires out.Valid()
    ensures Chunks.Sized(out.parts)
  {
  }

  /** Any plain instruction outside any block: what it has to wait for, then the instruction itself. */
  method EmitOutside(b: Builder, i: Instr)
    requires Idling(b) && b.out.Valid() && Sound(b.out.nrRegisters, b.out.parts)
    requires (b.out.allocates ==> 1 <= b.out.largest)
    requires Plain(i) && Tidy.UsesBelow(Op(i), Chunks.LenReg(b.out.nrRegisters))
    modifies b, b.cur, b.out, b.out.buffers, set m | m in b.pendingMaybes
    ensures Idling(b) && b.cur == old(b.cur) && b.pendingMaybes == old(b.pendingMaybes)
    ensures b.out.Valid() && (old(b.out.invalid) ==> b.out.invalid)
    ensures Chunks.Extends(b.out.parts, old(b.out.parts)) && old(b.out.mems) <= b.out.mems
    ensures var o := Gen(b.lsSlot, Op(i), old(Now(b)), IDLE);
            && Now(b) == S.Between(o.ctx)
            && b.out.SpaceLeft() == Spaces.Singly(old(b.out.SpaceLeft()), |o.code|)
            && (!b.out.invalid ==>
                  && b.out.Stream() == old(b.out.Stream()) + Preservation.Finish(o.code)
                  && Sound(b.out.nrRegisters, b.out.parts))
  {
    hide Chunks.CommandStream.Valid, Chunks.Flatten, Chunks.Extends, Sound, Clash, Linking.Below,
         Chunks.CommandStream.SpaceLeft, Chunks.Taken, Spaces.Singly, Preservation.Finish, Gen;
    Spaces.OneOrTwo(b.out.SpaceLeft());
    OpSize(b.lsSlot, i, Now(b));
    UsesOne(i, Chunks.LenReg(b.out.nrRegisters), b.lsSlot);
    S.OpFinished(b.lsSlot, i, Now(b));
    b.Steady(b.out);
    ghost var was := b.out.parts;
    if Clash(i, b.cur.now.loads) {
      EmitOne(b, Wait({b.lsSlot}));
      b.cur.now := IDLE;
    }
    ghost var mid := b.out.parts;
    b.out.FullSpace();
    if !b.out.invalid {
      EmitOne(b, i);
    }
    b.cur.now := Structured.After(b.lsSlot, i, b.cur.now);
    Chunks.ExtendsTransitive(b.out.parts, mid, was);
  }

  lemma OpSize(ls: nat, i: Instr, g: Structured.Ctx)
    ensures |Gen(ls, Op(i), g, IDLE).code| == if Clash(i, g.tr.loads) then 2 else 1
  {
    hide Clash;
  }

  lemma UsesOne(i: Instr, top: Reg, ls: nat)
    requires Tidy.UsesBelow(Op(i), top)
    ensures Linking.Below(i, top) && Linking.Below(Wait({ls}), top)
  {
  }

  // ----- Recording ------------------------------------------------------------------------------------

  /** What the builder takes between blocks, in the context `g`. */
  ghost predicate Takes(b: Builder, c: S.Command, g: Structured.Ctx)
    requires b.out.nrRegisters >= Chunks.LINK
  {
    && Tidy.UsesBelow(S.StmtOf(c), Chunks.LenReg(b.out.nrRegisters))
    && match c
       case Block(s) => Compilable(b, s, g)
       case Bare(s) => Compilable(b, s, g) && Outermost.Construct(s)
       case Outside(i) => Plain(i) && (b.out.allocates ==> 1 <= b.out.largest)
  }

  /** It takes all of them, one after the other. */
  ghost predicate TakesAll(b: Builder, cs: seq<S.Command>, g: Structured.Ctx)
    requires b.out.nrRegisters >= Chunks.LINK
  {
    forall k :: 0 <= k < |cs| ==> Takes(b, cs[k], S.CtxAfter(b.lsSlot, cs[..k], g))
  }

  /** `cs` has been recorded in the context `g`, behind `before`. */
  ghost predicate Recorded(b: Builder, cs: seq<S.Command>, g: Structured.Ctx, before: seq<Instr>)
    reads b, b.cur, b.pending, b.pending.block, b.pending.endLabel, b.pending.lsState, b.out, b.out.mems
  {
    && b.out.Valid()
    && (!b.out.invalid ==>
          && Idling(b) && Now(b) == S.CtxAfter(b.lsSlot, cs, g) && Sound(b.out.nrRegisters, b.out.parts)
          && b.out.Stream() == before + Preservation.Finish(Gen(b.lsSlot, S.All(cs), g, IDLE).code))
  }

  /** Record one command. */
  method Emit(b: Builder, c: S.Command) returns (ms: seq<MaybeBlock>)
    requires Idling(b) && b.out.Valid() && Sound(b.out.nrRegisters, b.out.parts) && Takes(b, c, Now(b))
    modifies b, b.cur, b.pending, b.pending.block, b.pending.endLabel, b.pending.lsState, b.FlushFrame()
    ensures b.out.Valid() && (old(b.out.invalid) ==> b.out.invalid) && b.cur == old(b.cur)
    ensures Chunks.Extends(b.out.parts, old(b.out.parts)) && old(b.out.mems) <= b.out.mems
    ensures Driver.Adds(ms, [], Kept(b.lsSlot, S.StmtOf(c), old(Now(b)), IDLE, 0, 0))
    ensures (!b.out.invalid ==> Driver.OnlyOwn(b))
    ensures var o := Gen(b.lsSlot, S.StmtOf(c), old(Now(b)), IDLE);
            && Now(b) == S.Between(o.ctx)
            && b.out.SpaceLeft() == Spaces.AfterOne(old(b.out.SpaceLeft()), c, |o.code|)
            && (!b.out.invalid ==>
                  && b.out.Stream() == old(b.out.Stream()) + Preservation.Finish(o.code)
                  && Idling(b) && Sound(b.out.nrRegisters, b.out.parts)
                  && Located(ms, b.out, |old(b.out.Stream())|)
                  && (!c.Outside? ==> InOneChunk(b.out.parts, |old(b.out.Stream())|, |o.code|)))
  {
    hide Gen, Driver.Fits, WellFormed, Patch, Sound, Chunks.CommandStream.Valid, Chunks.Flatten, Tidy.UsesBelow,
         Linking.Closed, Linking.AllBelow,
         Chunks.Extends, InOneChunk, Compilable;
    match c
    case Block(s) => ms := Compile(b, s);
    case Bare(s) => ms := EmitBare(b, s);
    case Outside(i) =>
      EmitOutside(b, i);
      ms := [];
  }

  lemma NothingRecorded(ls: nat, g: Structured.Ctx)
    ensures S.CtxAfter(ls, [], g) == S.Between(g) && Preservation.Finish(Gen(ls, S.All([]), g, IDLE).code) == []
  {
  }

  lemma TakesFormed(b: Builder, cs: seq<S.Command>, g: Structured.Ctx)
    requires b.out.nrRegisters >= Chunks.LINK && TakesAll(b, cs, g)
    ensures S.Formed(cs) && forall k :: 0 <= k < |cs| ==>
                Tidy.UsesBelow(S.StmtOf(cs[k]), Chunks.LenReg(b.out.nrRegisters))
  {
    hide Gen, WellFormed, Driver.Fits, Tidy.UsesBelow;
    forall k | 0 <= k < |cs| ensures WellFormed(S.StmtOf(cs[k]), false, false) {
      assert Takes(b, cs[k], S.CtxAfter(b.lsSlot, cs[..k], g));
      if cs[k].Outside? { OpFormed(cs[k].i); }
    }
  }

  lemma OpFormed(i: Instr)
    ensures WellFormed(Op(i), false, false) <==> Plain(i)
  {
  }

  /** Record the commands from `lo` on, up to `hi`. */
  method EmitFrom(b: Builder, cs: seq<S.Command>, lo: nat, hi: nat, ghost g: Structured.Ctx, ghost before: seq<Instr>)
    requires lo <= hi <= |cs| && b.out.nrRegisters >= Chunks.LINK && TakesAll(b, cs, g)
    requires Recorded(b, cs[..lo], g, before)
    modifies b, b.cur, b.pending, b.pending.block, b.pending.endLabel, b.pending.lsState, b.FlushFrame()
    ensures Recorded(b, cs[..hi], g, before) && (old(b.out.invalid) ==> b.out.invalid) && b.cur == old(b.cur)
    ensures Chunks.Extends(b.out.parts, old(b.out.parts)) && old(b.out.mems) <= b.out.mems
    ensures (!b.out.invalid ==> Driver.OnlyOwn(b))
    ensures b.out.SpaceLeft() == Spaces.AfterAll(old(b.out.SpaceLeft()), b.lsSlot, cs, lo, hi, g)
  {
    hide Gen, Patch, Sound, Chunks.CommandStream.Valid, Chunks.Flatten, Chunks.Extends, Takes, S.All, S.CtxAfter,
         WellFormed, Idling, Preservation.Finish, Chunks.CommandStream.SpaceLeft, Spaces.AfterOne, Spaces.CodeSize;
    ghost var was, space := b.out.parts, b.out.SpaceLeft();
    b.Steady(b.out);
    TakesFormed(b, cs, g);
    var k := lo;
    while k < hi && !b.out.invalid
      invariant lo <= k <= hi && Recorded(b, cs[..k], g, before) && (old(b.out.invalid) ==> b.out.invalid)
      invariant b.cur == old(b.cur)
      invariant Chunks.Extends(b.out.parts, was) && old(b.out.mems) <= b.out.mems
      invariant !b.out.invalid ==> Driver.OnlyOwn(b)
      invariant b.out.SpaceLeft() == Spaces.AfterAll(space, b.lsSlot, cs, lo, k, g)
    {
      ghost var mid := b.out.parts;
      var _ := EmitNext(b, cs, k, g, before);
      Chunks.ExtendsTransitive(b.out.parts, mid, was);
      k := k + 1;
    }
    b.out.FullSpace();
    if b.out.invalid {
      Spaces.AfterFull(b.lsSlot, cs, k, hi, g);
      Spaces.AfterJoined(space, b.lsSlot, cs, lo, k, hi, g);
    }
  }

  /** Record the next command. */
  method EmitNext(b: Builder, cs: seq<S.Command>, k: nat, ghost g: Structured.Ctx,
                  ghost before: seq<Instr>) returns (ms: seq<MaybeBlock>)
    requires k < |cs| && b.out.nrRegisters >= Chunks.LINK && TakesAll(b, cs, g) && Recorded(b, cs[..k], g, before)
    requires !b.out.invalid
    modifies b, b.cur, b.pending, b.pending.block, b.pending.endLabel, b.pending.lsState, b.FlushFrame()
    ensures Recorded(b, cs[..k + 1], g, before) && b.cur == old(b.cur)
    ensures Chunks.Extends(b.out.parts, old(b.out.parts)) && old(b.out.mems) <= b.out.mems
    ensures (!b.out.invalid ==> Driver.OnlyOwn(b))
    ensures Driver.Adds(ms, [], Kept(b.lsSlot, S.StmtOf(cs[k]), S.CtxAfter(b.lsSlot, cs[..k], g), IDLE, 0, 0))
    ensures Chunks.Sized(old(b.out.parts))
    ensures b.out.SpaceLeft() == Spaces.AfterOne(old(b.out.SpaceLeft()), cs[k],
                                                 Spaces.CodeSize(b.lsSlot, cs[k], S.CtxAfter(b.lsSlot, cs[..k], g)))
    ensures !b.out.invalid ==> Located(ms, b.out, |old(b.out.Stream())|)
    ensures !b.out.invalid && !cs[k].Outside? ==>
              InOneChunk(b.out.parts, |old(b.out.Stream())|,
                         |Gen(b.lsSlot, S.StmtOf(cs[k]), S.CtxAfter(b.lsSlot, cs[..k], g), IDLE).code|)
  {
    hide Gen, Patch, Sound, Chunks.CommandStream.Valid, Chunks.Flatten, Chunks.Extends, Takes, S.All, S.CtxAfter,
         WellFormed, Idling,
         Preservation.Finish, InOneChunk, Located, Kept, Chunks.CommandStream.SpaceLeft, Spaces.AfterOne;
    TakesFormed(b, cs, g);
    assert Takes(b, cs[k], S.CtxAfter(b.lsSlot, cs[..k], g));
    S.Longer(b.lsSlot, cs[..k], cs[k], g);
    assert cs[..k] + [cs[k]] == cs[..k + 1];
    ms := Emit(b, cs[k]);
  }

  /** Finish the command stream. */
  method End(b: Builder)
    requires Idling(b) && b.out.Valid() && !b.out.invalid && Sound(b.out.nrRegisters, b.out.parts)
    requires forall a :: a in b.out.buffers ==> (a.Length + Chunks.LINK) * 8 < W32
    modifies b`instrs, b`stack, b.out, b.out.buffers
    ensures !b.out.invalid && b.out.nrRegisters >= Chunks.LINK && Chunks.Sized(b.out.parts)
    ensures b.out.Stream() == old(b.out.Stream()) && Chunks.InMemory(b.out.mems, b.out.parts)
    ensures b.out.parts != [] ==>
              && Linking.Ready(b.out.nrRegisters, b.out.parts)
              && b.out.root.buffer == Chunks.Buffer(b.out.mems[0], b.out.parts[0].gpu)
              && b.out.root.pos == b.out.parts[0].size + if |b.out.parts| > 1 then Chunks.LINK else 0
  {
    hide Patch, Chunks.Flatten, Chunks.Linked, Chunks.Apart, Chunks.InMemory, Chunks.SameCode, Sound, Linking.Ready;
    ghost var mems, was := b.out.mems, b.out.parts;
    BuffersHeld(b.out);
    b.FlushPendingIf();
    b.out.End();
    EndReady(b.out.nrRegisters, was, b.out.parts, mems, b.out.supply, b.out.buffers);
  }

  lemma BuffersHeld(out: Chunks.CommandStream)
    requires out.Valid()
    ensures forall a :: a in out.mems ==> a in out.buffers
  {
    hide Chunks.Linked, Chunks.Apart, Chunks.Flatten;
    Chunks.WithinAll(out.buffers, out.mems, out.supply);
  }

  lemma EndReady(nr: nat, was: seq<Chunks.Part>, now: seq<Chunks.Part>, mems: seq<array<Instr>>,
                 supply: seq<Chunks.Buffer>, buffers: set<array<Instr>>)
    requires Sound(nr, was) && Chunks.SameCode(now, was) && Chunks.Linked(nr, now, true)
    requires Chunks.Apart(mems, now, supply)
    requires Chunks.InMemory(mems, now) && forall a :: a in mems ==> a in buffers
    requires forall a :: a in buffers ==> (a.Length + Chunks.LINK) * 8 < W32
    ensures Chunks.Sized(now) && (now != [] ==> Linking.Ready(nr, now))
  {
    hide Chunks.Linked, Linking.Closed, Linking.AllBelow;
    forall k | 0 <= k < |now| ensures k < |now| && nr >= Chunks.LINK && now[k].size <= |now[k].words|
        && Linking.ReadyPart(nr, now[k]) {
      assert SoundCode(nr, Chunks.Code(was[k])) && mems[k] in buffers && |now[k].words| == mems[k].Length;
    }
  }

  /** After `before`, which was in the stream already, the program runs to its end; only registers below the
      builder's own are looked at. */
  ghost predicate MeansBehind(before: seq<Instr>, s: Stmt, c: Core, d: Core, top: Reg) {
    exists m: Core, e: Core :: Preservation.Ends(before, c, m) && Preservation.Means(s, m, e)
        && Linking.Visible(e, top) == d
  }

  /** Behind nothing, the program is all there is. */
  lemma BehindNothing(s: Stmt, c: Core, d: Core, top: Reg)
    ensures MeansBehind([], s, c, d, top) <==>
            exists e: Core :: Preservation.Means(s, c, e) && Linking.Visible(e, top) == d
  {
    hide Preservation.Means, Linking.Visible;
    forall m: Core ensures Preservation.Ends([], c, m) <==> m == c {
      assert Steps([], Config(0, c), 0) == Config(0, c);
      forall n: nat ensures Steps([], Config(0, c), n) == Config(0, c) { Preservation.Rest([], Config(0, c), n); }
    }
  }

  /** A finished stream: in memory as linked chunks, from which it follows what the machine does that starts in
      the root chunk and follows the links. It stops in exactly the states that `before` and then `s` lead to. */
  ghost predicate Finished(b: Builder, before: seq<Instr>, s: Stmt)
    reads b, b.out, b.out.mems
  {
    && b.out.nrRegisters >= Chunks.LINK && Chunks.InMemory(b.out.mems, b.out.parts) && Chunks.Sized(b.out.parts)
    && (b.out.parts == [] ==> before == [])
    && (b.out.parts != [] ==>
          && Linking.Ready(b.out.nrRegisters, b.out.parts)
          && b.out.root.buffer == Chunks.Buffer(b.out.mems[0], b.out.parts[0].gpu)
          && b.out.root.pos == b.out.parts[0].size + (if |b.out.parts| > 1 then Chunks.LINK else 0)
          && forall c, d :: Linking.ChunksEnd(b.out.nrRegisters, b.out.parts, c, d)
                       <==> MeansBehind(before, s, c, d, Chunks.LenReg(b.out.nrRegisters)))
  }

  /** End to end: any number of programs, and instructions between them, recorded behind what the stream held
      before, and the stream finished. */
  method Record(b: Builder, cs: seq<S.Command>)
    requires Idling(b) && b.out.Valid() && Sound(b.out.nrRegisters, b.out.parts) && TakesAll(b, cs, Now(b))
    requires forall a :: a in b.out.buffers ==> (a.Length + Chunks.LINK) * 8 < W32
    modifies b, b.cur, b.pending, b.pending.block, b.pending.endLabel, b.pending.lsState, b.FlushFrame()
    ensures old(b.out.invalid) ==> b.out.invalid
    ensures b.out.invalid <==> Spaces.AfterAll(old(b.out.SpaceLeft()), b.lsSlot, cs, 0, |cs|, old(Now(b))).Full?
    ensures (!old(b.out.invalid) && b.out.allocates
             && |old(b.out.supply)| >= Spaces.Pieces(b.lsSlot, cs, 0, |cs|, old(Now(b)))) ==> !b.out.invalid
    ensures !b.out.invalid ==>
              && Chunks.Sized(b.out.parts)
              && b.out.Stream() == old(b.out.Stream()) + Preservation.Finish(Gen(b.lsSlot, S.All(cs), old(Now(b)),
                     IDLE).code)
              && Finished(b, old(b.out.Stream()), S.All(cs))
  {
    hide Gen, Patch, Sound, Chunks.CommandStream.Valid, Chunks.Flatten, Chunks.Extends, TakesAll, S.All, S.CtxAfter,
         WellFormed, Preservation.Finish, Finished, Linking.Closed, Linking.AllBelow, Tidy.UsesBelow,
         Chunks.CommandStream.SpaceLeft, Spaces.Pieces, Spaces.AfterAll;
    ghost var g, before := Now(b), b.out.Stream();
    TakesFormed(b, cs, g);
    S.AllFormed(cs);
    S.AllBelow(cs, Chunks.LenReg(b.out.nrRegisters));
    Tidy.FinishedTidy(b.lsSlot, S.All(cs), g, IDLE, Chunks.LenReg(b.out.nrRegisters));
    SoundStream(b.out.nrRegisters, b.out.parts);
    NothingRecorded(b.lsSlot, g);
    assert cs[..0] == [] && cs[..|cs|] == cs;
    EnoughBuffers(b.out, b.lsSlot, cs, g);
    EmitFrom(b, cs, 0, |cs|, g, before);
    b.out.FullSpace();
    if !b.out.invalid {
      Close(b, before, S.All(cs), g);
    }
  }

  /** A buffer for every piece is enough. */
  lemma EnoughBuffers(out: Chunks.CommandStream, ls: nat, cs: seq<S.Command>, g: Structured.Ctx)
    ensures (!out.invalid && out.allocates && |out.supply| >= Spaces.Pieces(ls, cs, 0, |cs|, g)) ==>
              !Spaces.AfterAll(out.SpaceLeft(), ls, cs, 0, |cs|, g).Full?
  {
    hide S.CtxAfter, Spaces.CodeSize, Spaces.AfterOne;
    if !out.invalid && out.allocates && |out.supply| >= Spaces.Pieces(ls, cs, 0, |cs|, g) {
      Spaces.Enough(out.SpaceLeft(), ls, cs, 0, |cs|, g);
    }
  }

  /** End a stream that holds `before` and the code of `s`. */
  method Close(b: Builder, ghost before: seq<Instr>, ghost s: Stmt, ghost g: Structured.Ctx)
    requires Idling(b) && b.out.Valid() && !b.out.invalid && Sound(b.out.nrRegisters, b.out.parts)
    requires forall a :: a in b.out.buffers ==> (a.Length + Chunks.LINK) * 8 < W32
    requires WellFormed(s, false, false) && Linking.Closed(before)
    requires Linking.Closed(Preservation.Finish(Gen(b.lsSlot, s, g, IDLE).code))
    requires b.out.Stream() == before + Preservation.Finish(Gen(b.lsSlot, s, g, IDLE).code)
    modifies b`instrs, b`stack, b.out, b.out.buffers
    ensures !b.out.invalid && Chunks.Sized(b.out.parts) && b.out.Stream() == old(b.out.Stream())
    ensures Finished(b, before, s)
  {
    hide Gen, Patch, Sound, Chunks.CommandStream.Valid, Chunks.Flatten, WellFormed, Preservation.Finish, Linking.Ready,
         Chunks.InMemory,
         Linking.ChunksEnd, MeansBehind, Linking.Closed;
    End(b);
    if b.out.parts == [] {
      EmptyFlat(b.out.parts);
    } else {
      forall c, d ensures Linking.ChunksEnd(b.out.nrRegisters, b.out.parts, c, d)
       <==> MeansBehind(before, s, c, d, Chunks.LenReg(b.out.nrRegisters)) {
        Faithful(b.lsSlot, before, s, g, b.out.nrRegisters, b.out.parts, c, d);
      }
    }
  }

  /** The stream of sound chunks stands on its own. */
  lemma {:induction false} SoundStream(nr: nat, parts: seq<Chunks.Part>)
    requires Sound(nr, parts)
    ensures Linking.Closed(Chunks.Flatten(parts))
    decreases |parts|
  {
    if parts != [] {
      SoundStream(nr, parts[..|parts| - 1]);
      assert SoundCode(nr, Chunks.Code(parts[|parts| - 1]));
    }
  }

  /** The chunks mean what was recorded. */
  lemma Faithful(ls: nat, before: seq<Instr>, s: Stmt, g: Structured.Ctx, nr: nat, parts: seq<Chunks.Part>, c: Core,
                 d: Core)
    requires WellFormed(s, false, false) && Linking.Ready(nr, parts)
    requires Chunks.Sized(parts) && Chunks.Flatten(parts) == before + Preservation.Finish(Gen(ls, s, g, IDLE).code)
    requires nr >= Chunks.LINK && Linking.Closed(before)
    requires Linking.Closed(Preservation.Finish(Gen(ls, s, g, IDLE).code))
    ensures Linking.ChunksEnd(nr, parts, c, d) <==> MeansBehind(before, s, c, d, Chunks.LenReg(nr))
  {
    hide Linking.Ready, Linking.Visible, Gen, Preservation.Means, Linking.ChunksEnd, Preservation.Ends, Linking.Closed,
         WellFormed, Steps;
    var code, top := Preservation.Finish(Gen(ls, s, g, IDLE).code), Chunks.LenReg(nr);
    Linking.ChunksRefineStream(nr, parts, c, d);
    FlatEnds(nr, before + code, c, d);
    if Linking.FlatEnds(nr, before + code, c, d) {
      var e: Core :| Preservation.Ends(before + code, c, e) && Linking.Visible(e, top) == d;
      S.OneAfterTheOther(before, code, c, e);
      var m: Core :| Preservation.Ends(before, c, m) && Preservation.Ends(code, m, e);
      Preservation.CompilationPreservesMeaning(ls, s, g, IDLE, m, e);
    }
    if MeansBehind(before, s, c, d, top) {
      var m: Core, e: Core :| Preservation.Ends(before, c, m) && Preservation.Means(s, m, e)
          && Linking.Visible(e, top) == d;
      Preservation.CompilationPreservesMeaning(ls, s, g, IDLE, m, e);
      S.OneAfterTheOther(before, code, c, e);
    }
  }

  lemma FlatEnds(nr: nat, p: seq<Instr>, c: Core, d: Core)
    requires nr >= Chunks.LINK
    ensures Linking.FlatEnds(nr, p, c, d) <==>
            exists e: Core :: Preservation.Ends(p, c, e) && Linking.Visible(e, Chunks.LenReg(nr)) == d
  {
    hide Linking.Visible, Steps;
    if Linking.FlatEnds(nr, p, c, d) {
      var n: nat :| Steps(p, Config(0, c), n).pc == |p|
          && Linking.Visible(Steps(p, Config(0, c), n).core, Chunks.LenReg(nr)) == d;
      var e := Steps(p, Config(0, c), n).core;
      assert Steps(p, Config(0, c), n) == Config(|p|, e);
      assert Preservation.Ends(p, c, e);
    }
    if exists e: Core :: Preservation.Ends(p, c, e) && Linking.Visible(e, Chunks.LenReg(nr)) == d {
      var e: Core :| Preservation.Ends(p, c, e) && Linking.Visible(e, Chunks.LenReg(nr)) == d;
      var n: nat :| Steps(p, Config(0, c), n) == Config(|p|, e);
    }
  }
}
