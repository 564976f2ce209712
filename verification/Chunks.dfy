/**
 The memory a command stream is written to: buffers handed out by the client's allocator, linked by
 MOVE48 / MOVE32 / JUMP, the length of a chunk patched into the previous chunk's link when it is done.
 */
module Chunks {
  import opened Isa

  /** The sequence is MOVE48, MOVE32, JUMP; the builder keeps one slot more in reserve. */
  const JUMP_SEQ_INSTR_COUNT: nat := 4
  const LINK: nat := 3

  datatype Buffer = NoBuffer | Buffer(cpu: array<Instr>, gpu: nat)

  /** `pos` is the write position of the active chunk, and the final size of a wrapped one. */
  datatype Chunk = Chunk(buffer: Buffer, pos: nat)

  function GpuOf(b: Buffer): nat {
    if b.Buffer? then b.gpu else 0
  }

  /** Where the length of the current chunk has to be patched in. */
  datatype Patch = NoPatch | Patch(cpu: array<Instr>, at: nat)

  // ----- Chunks as values --------------------------------------------------------------------------

  /** The contents of one buffer: `size` instructions of code, and behind them the link to the next chunk. */
  datatype Part = Part(gpu: nat, words: seq<Instr>, size: nat)

  function Code(p: Part): seq<Instr>
    requires p.size <= |p.words|
  {
    p.words[..p.size]
  }

  predicate Sized(parts: seq<Part>) {
    forall k :: 0 <= k < |parts| ==> parts[k].size <= |parts[k].words|
  }

  /** All code, in order. */
  function Flatten(parts: seq<Part>): seq<Instr>
    requires Sized(parts)
  {
    if parts == [] then []
    else Flatten(parts[..|parts| - 1]) + Code(parts[|parts| - 1])
  }

  /** The top of the register file is the builder's own. */
  function AddrReg(nrRegisters: nat): Reg
    requires nrRegisters >= LINK
  {
    nrRegisters - 2
  }

  function LenReg(nrRegisters: nat): Reg
    requires nrRegisters >= LINK
  {
    nrRegisters - 3
  }

  /** MOVE48, MOVE32, JUMP at `at`: go to address `gpu`, for `length` bytes. */
  predicate IsLink(nrRegisters: nat, words: seq<Instr>, at: nat, gpu: nat, length: Word)
    requires nrRegisters >= LINK
  {
    && at + LINK <= |words|
    && words[at] == Move48(AddrReg(nrRegisters), gpu)
    && words[at + 1] == Move32(LenReg(nrRegisters), length)
    && words[at + 2] == Jump(LenReg(nrRegisters), AddrReg(nrRegisters))
  }

  /** Lengths are in bytes, in a 32-bit immediate. */
  function Bytes(size: nat): Word {
    (size * 8) % W32
  }

  /** The length a link to chunk `k` carries: 0 until the chunk is wrapped. */
  function LengthOf(parts: seq<Part>, k: nat, ended: bool): Word
    requires k < |parts|
  {
    if k < |parts| - 1 then Bytes(parts[k].size + LINK)
    else if ended then Bytes(parts[k].size)
    else 0
  }

  /** Chunk `k` ends in the link to the next one. */
  ghost predicate LinkedAt(nrRegisters: nat, parts: seq<Part>, ended: bool, k: nat)
    requires nrRegisters >= LINK && k < |parts| - 1
  {
    IsLink(nrRegisters, parts[k].words, parts[k].size, parts[k + 1].gpu, LengthOf(parts, k + 1, ended))
  }

  /** Every chunk but the last is linked to the next. */
  ghost predicate Linked(nrRegisters: nat, parts: seq<Part>, ended: bool) {
    && nrRegisters >= LINK && Sized(parts)
    && forall k :: 0 <= k < |parts| - 1 ==> LinkedAt(nrRegisters, parts, ended, k)
  }

  /** `words` with `more` written at `at`. */
  function Overwrite(words: seq<Instr>, at: nat, more: seq<Instr>): (r: seq<Instr>)
    requires at + |more| <= |words|
    ensures |r| == |words|
  {
    words[..at] + more + words[at + |more|..]
  }

  /** The length word of the link behind the code of `p`, patched. */
  function Patched(p: Part, length: Word): Part
    requires p.size + 1 < |p.words| && p.words[p.size + 1].Move32?
  {
    p.(words := p.words[p.size + 1 := p.words[p.size + 1].(imm32 := length)])
  }

  /** The chunks once the length of the last one has been patched in. */
  function Wrapped(nrRegisters: nat, parts: seq<Part>, length: Word): (r: seq<Part>)
    requires Linked(nrRegisters, parts, false)
    ensures |r| == |parts|
  {
    var n := |parts|;
    if n < 2 then parts
    else
      assert LinkedAt(nrRegisters, parts, false, n - 2);
      parts[n - 2 := Patched(parts[n - 2], length)]
  }

  /** Same buffers, same code. */
  ghost predicate SameCode(a: seq<Part>, b: seq<Part>) {
    && Sized(a) && Sized(b) && |a| == |b|
    && forall k :: 0 <= k < |a| ==> a[k].size == b[k].size && a[k].gpu == b[k].gpu && Code(a[k]) == Code(b[k])
  }

  lemma {:induction false} SameFlatten(a: seq<Part>, b: seq<Part>)
    requires SameCode(a, b)
    ensures Flatten(a) == Flatten(b)
    decreases |a|
  {
    if a != [] { SameFlatten(a[..|a| - 1], b[..|a| - 1]); }
  }

  lemma WrappedKeeps(nrRegisters: nat, parts: seq<Part>, length: Word)
    requires Linked(nrRegisters, parts, false) && parts != []
    ensures SameCode(Wrapped(nrRegisters, parts, length), parts)
    ensures Wrapped(nrRegisters, parts, length)[|parts| - 1] == parts[|parts| - 1]
  {
    var n := |parts|;
    if n >= 2 {
      assert LinkedAt(nrRegisters, parts, false, n - 2);
      assert Code(Wrapped(nrRegisters, parts, length)[n - 2]) == Code(parts[n - 2]);
    }
  }

  lemma WrappedAt(nrRegisters: nat, parts: seq<Part>, length: Word, k: nat)
    requires Linked(nrRegisters, parts, false) && k < |parts| - 1
    ensures var r := Wrapped(nrRegisters, parts, length);
            IsLink(nrRegisters, r[k].words, parts[k].size, parts[k + 1].gpu,
                   if k == |parts| - 2 then length else LengthOf(parts, k + 1, false))
  {
    assert LinkedAt(nrRegisters, parts, false, k);
  }

  /** Wrapping sets the length of the last chunk and leaves all code alone. */
  lemma WrappedLinks(nrRegisters: nat, parts: seq<Part>)
    requires Linked(nrRegisters, parts, false) && parts != []
    ensures var r := Wrapped(nrRegisters, parts, Bytes(parts[|parts| - 1].size));
            Linked(nrRegisters, r, true) && SameCode(r, parts)
  {
    hide Wrapped;
    var length := Bytes(parts[|parts| - 1].size);
    var r := Wrapped(nrRegisters, parts, length);
    WrappedKeeps(nrRegisters, parts, length);
    forall k | 0 <= k < |parts| - 1 ensures LinkedAt(nrRegisters, r, true,
                                                     k) { WrappedAt(nrRegisters, parts, length, k); }
  }

  /** The chunks after moving on to a new buffer: the link is written behind the last chunk, which is
      then wrapped with the link counted in its length. */
  function Extended(nrRegisters: nat, parts: seq<Part>, next: Part): (r: seq<Part>)
    requires Linked(nrRegisters, parts, false) && parts != []
    requires parts[|parts| - 1].size + LINK <= |parts[|parts| - 1].words|
  {
    var n := |parts|;
    var last := parts[n - 1];
    Wrapped(nrRegisters, parts, Bytes(last.size + LINK))[n - 1 := WithLink(nrRegisters, last, next.gpu)] + [next]
  }

  function WithLink(nrRegisters: nat, p: Part, gpu: nat): (r: Part)
    requires nrRegisters >= LINK && p.size + LINK <= |p.words|
    ensures |r.words| == |p.words|
  {
    p.(words := p.words[p.size := Move48(AddrReg(nrRegisters), gpu)]
                       [p.size + 1 := Move32(LenReg(nrRegisters), 0)]
                       [p.size + 2 := Jump(LenReg(nrRegisters), AddrReg(nrRegisters))])
  }

  lemma ExtendedLinks(nrRegisters: nat, parts: seq<Part>, next: Part)
    requires Linked(nrRegisters, parts, false) && parts != [] && next.size == 0
    requires parts[|parts| - 1].size + LINK <= |parts[|parts| - 1].words|
    ensures var r := Extended(nrRegisters, parts, next);
            && Linked(nrRegisters, r, false) && Sized(r)
            && SameCode(r[..|parts|], parts)
            && Flatten(r) == Flatten(parts)
  {
    hide Wrapped, WithLink;
    var n := |parts|;
    var last, length := parts[n - 1], Bytes(parts[n - 1].size + LINK);
    var r := Extended(nrRegisters, parts, next);
    WithLinkIs(nrRegisters, last, next.gpu);
    WrappedKeeps(nrRegisters, parts, length);
    assert SameCode(r[..n], parts);
    forall k | 0 <= k < n ensures LinkedAt(nrRegisters, r, false, k) {
      if k < n - 1 { WrappedAt(nrRegisters, parts, length, k); }
    }
    SameFlatten(r[..n], parts);
    assert r[..|r| - 1] == r[..n] && Code(r[n]) == [];
  }

  lemma WithLinkIs(nrRegisters: nat, p: Part, gpu: nat)
    requires nrRegisters >= LINK && p.size + LINK <= |p.words|
    ensures var r := WithLink(nrRegisters, p, gpu);
            r.size == p.size && r.gpu == p.gpu && Code(r) == Code(p) && IsLink(nrRegisters, r.words, r.size, gpu, 0)
  {
  }

  lemma {:induction false} FlattenAppend(parts: seq<Part>, q: Part, more: seq<Instr>)
    requires Sized(parts) && parts != []
    requires var p := parts[|parts| - 1];
             q.size == p.size + |more| <= |q.words| && q.words[..q.size] == Code(p) + more
    ensures Flatten(parts[|parts| - 1 := q]) == Flatten(parts) + more
  {
    var n := |parts| - 1;
    assert parts[n := q][..n] == parts[..n];
  }

  /** Buffers do not overlap, have distinct addresses, and can be addressed by a link. */
  ghost predicate Apart(mems: seq<array<Instr>>, parts: seq<Part>, supply: seq<Buffer>) {
    && |mems| == |parts|
    && (forall i :: 0 <= i < |supply| ==> supply[i].Buffer? && supply[i].gpu < 0x1_0000_0000_0000)
    && (forall i, j :: 0 <= i < j < |supply| ==> supply[i].cpu != supply[j].cpu && supply[i].gpu != supply[j].gpu)
    && (forall i :: 0 <= i < |parts| ==> parts[i].gpu < 0x1_0000_0000_0000)
    && (forall i, j :: 0 <= i < j < |parts| ==> mems[i] != mems[j] && parts[i].gpu != parts[j].gpu)
    && (forall i, j :: 0 <= i < |parts| && 0 <= j < |supply| ==>
        && mems[i] != supply[j].cpu
        && parts[i].gpu != supply[j].gpu)
  }

  ghost predicate Roomy(supply: seq<Buffer>, largest: nat) {
    forall i :: 0 <= i < |supply| && supply[i].Buffer? ==> supply[i].cpu.Length >= largest + LINK + 1
  }

  ghost predicate Within(buffers: set<array<Instr>>, mems: seq<array<Instr>>, supply: seq<Buffer>) {
    && (forall i :: 0 <= i < |mems| ==> mems[i] in buffers)
    && (forall i :: 0 <= i < |supply| && supply[i].Buffer? ==> supply[i].cpu in buffers)
  }

  lemma ApartNext(mems: seq<array<Instr>>, parts: seq<Part>, supply: seq<Buffer>, next: Part, more: seq<Part>)
    requires Apart(mems, parts, supply) && supply != [] && next.gpu == supply[0].gpu
    requires |more| == |parts| + 1 && SameCode(more[..|parts|], parts) && more[|parts|] == next
    ensures Apart(mems + [supply[0].cpu], more, supply[1..])
  {
    assert forall k :: 0 <= k < |parts| ==> more[..|parts|][k] == more[k];
  }

  ghost predicate InMemory(mems: seq<array<Instr>>, parts: seq<Part>)
    reads mems
  {
    |mems| == |parts| && forall k :: 0 <= k < |mems| ==> mems[k][..] == parts[k].words
  }

  lemma InMemoryNext(mems: seq<array<Instr>>, parts: seq<Part>, a: array<Instr>)
    requires |parts| == |mems| + 1 && InMemory(mems, parts[..|mems|]) && a[..] == parts[|mems|].words
    ensures InMemory(mems + [a], parts)
  {
  }

  lemma RoomyNext(supply: seq<Buffer>, largest: nat)
    requires supply != [] && Roomy(supply, largest)
    ensures Roomy(supply[1..], largest)
  {
  }

  lemma FlattenOne(p: Part)
    requires p.size == 0
    ensures Flatten([p]) == []
  {
    assert [p][..0] == [] && Code(p) == [];
  }

  ghost function RootMems(b: Buffer): seq<array<Instr>> {
    if b.Buffer? then [b.cpu] else []
  }

  ghost function RootParts(b: Buffer): seq<Part>
    reads if b.Buffer? then {b.cpu} else {}
  {
    if b.Buffer? then [Part(b.gpu, b.cpu[..], 0)] else []
  }

  lemma ApartBuffers(mems: seq<array<Instr>>, parts: seq<Part>, supply: seq<Buffer>)
    requires Apart(mems, parts, supply)
    ensures forall i :: 0 <= i < |supply| ==> supply[i].Buffer?
  {
  }

  method Copy(a: array<Instr>, at: nat, block: seq<Instr>)
    requires at + |block| <= a.Length
    modifies a
    ensures a[..] == Overwrite(old(a[..]), at, block)
  {
    ghost var was := a[..];
    assert Overwrite(was, at, []) == was;
    for i := 0 to |block|
      invariant a[..] == Overwrite(was, at, block[..i])
    {
      a[at + i] := block[i];
      assert block[..i + 1] == block[..i] + [block[i]];
    }
    assert block[..|block|] == block;
  }

  // ----- Room ----------------------------------------------------------------------------------------

  /** How many instructions the current chunk can still take, and what the allocator has left; a chunk that is not
      there cannot take any. `Full` is a stream that has run out of memory. */
  datatype Space = Full | Space(free: int, supply: seq<Buffer>)

  function Capacity(b: Buffer): nat {
    if b.Buffer? then b.cpu.Length else 0
  }

  /** A piece of `num` instructions is wanted: the current chunk takes it, or else the next buffer, which keeps the
      slots for a link back; without a next buffer there is no more room. */
  function Reserved(s: Space, num: nat): Space {
    if s.Full? || num <= s.free then s
    else if s.supply == [] then Full
    else Space(Capacity(s.supply[0]) - (LINK + 1), s.supply[1..])
  }

  function Taken(s: Space, num: nat): Space {
    if num == 0 then s
    else
      var r := Reserved(s, num);
      if r.Full? then Full else r.(free := r.free - num)
  }

  /** Behind a block of `num` instructions. When its last one loads its own address, there is a slot behind it. */
  function Behind(s: Space, num: nat, endsInIp: bool): Space {
    Taken(if endsInIp && num > 0 then Reserved(s, num + 1) else s, num)
  }

  lemma BehindNothing(s: Space)
    ensures forall ip :: Behind(s, 0, ip) == s
  {
  }

  /** There is no way back from having run out of memory. */
  lemma FullStays(num: nat, endsInIp: bool)
    ensures Reserved(Full, num) == Taken(Full, num) == Behind(Full, num, endsInIp) == Full
  {
  }

  // ----- The writer ----------------------------------------------------------------------------------

  class CommandStream {
    /** False when the client gave a single buffer and no allocator. */
    const allocates: bool
    const nrRegisters: nat

    /** What the allocator will return, in order; after that it fails. */
    var supply: seq<Buffer>
    var invalid: bool
    var root: Chunk
    var cur: Chunk
    var lengthPatch: Patch

    /** The buffers in use, and what they hold. */
    ghost var mems: seq<array<Instr>>
    ghost var parts: seq<Part>

    /** All buffers the stream may ever write to. */
    ghost const buffers: set<array<Instr>>

    /** The most instructions ever asked for at once. Every buffer has to take that many and the reserve
        for a link: the builder's own assertion asks only for the instructions, and only of the buffer
        before. */
    ghost const largest: nat

    /** The fields against the chunks. */
    ghost predicate Tracks()
      reads this
    {
      |mems| == |parts| &&
      if parts == [] then
        root == cur == Chunk(NoBuffer, 0) && lengthPatch == NoPatch && allocates
      else
        var n := |parts| - 1;
        && cur == Chunk(Buffer(mems[n], parts[n].gpu), parts[n].size)
        && root.buffer == Buffer(mems[0], parts[0].gpu)
        && (allocates ==> parts[n].size + LINK <= |parts[n].words|)
        && (n > 0 ==> root.pos == parts[0].size + LINK)
        && lengthPatch == (if n == 0 then NoPatch else Patch(mems[n - 1], parts[n - 1].size + 1))
    }

    ghost predicate Valid()
      reads this, mems
      ensures Valid() ==> nrRegisters >= LINK && Sized(parts) && Linked(nrRegisters, parts, false) && |mems| == |parts|
      ensures Valid() && parts != [] ==>
                cur == Chunk(Buffer(mems[|parts| - 1], parts[|parts| - 1].gpu), parts[|parts| - 1].size)
      ensures Valid() && parts != [] ==> mems[|parts| - 1] in buffers
    {
      && nrRegisters >= LINK && Apart(mems, parts, supply) && Within(buffers, mems, supply)
      && (allocates ==> Roomy(supply, largest))
      && InMemory(mems, parts) && Tracks() && Linked(nrRegisters, parts, false)
    }

    /** Everything appended so far, in order. */
    ghost function Stream(): seq<Instr>
      requires Sized(parts)
      reads this
    {
      Flatten(parts)
    }

    /** A stream starts in the client's buffer, or in the first one the allocator returns. */
    constructor (nrRegisters: nat, allocates: bool, buffer: Buffer, supply: seq<Buffer>, ghost largest: nat)
      requires nrRegisters >= LINK
      requires allocates || buffer.Buffer?
      requires Apart(RootMems(buffer), RootParts(buffer), supply)
      requires allocates ==> Roomy(supply, largest) && (buffer.Buffer? ==> buffer.cpu.Length >= LINK)
      ensures Valid() && !invalid && Stream() == []
      ensures this.allocates == allocates && this.supply == supply && this.nrRegisters == nrRegisters
      ensures this.largest == largest
      ensures mems == RootMems(buffer) && root == cur == Chunk(buffer, 0)
    {
      hide Apart, Roomy;
      ApartBuffers(RootMems(buffer), RootParts(buffer), supply);
      this.allocates := allocates;
      this.nrRegisters := nrRegisters;
      this.supply := supply;
      this.largest := largest;
      invalid := false;
      root := Chunk(buffer, 0);
      cur := Chunk(buffer, 0);
      lengthPatch := NoPatch;
      buffers := (set i | 0 <= i < |supply| && supply[i].Buffer? :: supply[i].cpu)
               + (if buffer.Buffer? then {buffer.cpu} else {});
      mems := RootMems(buffer);
      parts := RootParts(buffer);
      new;
      if buffer.Buffer? { FlattenOne(Part(buffer.gpu, buffer.cpu[..], 0)); }
    }

    /** Patch the length of the current chunk into the link that leads to it. */
    method Wrap()
      requires !invalid
      requires lengthPatch.Patch? ==> lengthPatch.at < lengthPatch.cpu.Length && lengthPatch.cpu[lengthPatch.at].Move32?
      modifies this`lengthPatch, this`root, if lengthPatch.Patch? then {lengthPatch.cpu} else {}
      ensures lengthPatch == NoPatch
      ensures old(lengthPatch).Patch? ==>
                var a, at := old(lengthPatch).cpu, old(lengthPatch).at;
                a[..] == old(a[..])[at := old(a[at]).(imm32 := Bytes(cur.pos))]
      ensures root == if GpuOf(old(root).buffer) == GpuOf(cur.buffer) then Chunk(old(root).buffer, cur.pos)
              else old(root)
    {
      if lengthPatch.Patch? {
        lengthPatch.cpu[lengthPatch.at] := lengthPatch.cpu[lengthPatch.at].(imm32 := Bytes(cur.pos));
        lengthPatch := NoPatch;
      }
      if GpuOf(root.buffer) == GpuOf(cur.buffer) {
        root := root.(pos := cur.pos);
      }
    }

    /** The link sequence, with the length left open. */
    method EmitLink(gpu: nat) returns (patch: Patch)
      requires cur.buffer.Buffer? && cur.pos + LINK <= cur.buffer.cpu.Length && nrRegisters >= LINK
      modifies this`cur, cur.buffer.cpu
      ensures cur == old(cur).(pos := old(cur).pos + LINK)
      ensures patch == Patch(cur.buffer.cpu, old(cur).pos + 1)
      ensures cur.buffer.cpu[..] == WithLink(nrRegisters, Part(0, old(cur.buffer.cpu[..]), old(cur).pos), gpu).words
    {
      var a := cur.buffer.cpu;
      a[cur.pos] := Move48(AddrReg(nrRegisters), gpu);
      cur := cur.(pos := cur.pos + 1);
      a[cur.pos] := Move32(LenReg(nrRegisters), 0);
      patch := Patch(a, cur.pos);
      cur := cur.(pos := cur.pos + 1);
      a[cur.pos] := Jump(LenReg(nrRegisters), AddrReg(nrRegisters));
      cur := cur.(pos := cur.pos + 1);
    }

    /** Emit the link to the next buffer and wrap the current chunk. */
    method LinkAndWrap(gpu: nat, ghost next: Part) returns (patch: Patch)
      requires Valid() && !invalid && allocates && parts != [] && next.gpu == gpu
      modifies this`cur, this`root, this`lengthPatch, mems
      ensures patch == Patch(mems[|parts| - 1], parts[|parts| - 1].size + 1)
      ensures |Extended(nrRegisters, parts, next)| == |parts| + 1
      ensures InMemory(mems, Extended(nrRegisters, parts, next)[..|parts|])
      ensures root == Chunk(Buffer(mems[0], parts[0].gpu), parts[0].size + LINK)
    {
      hide WithLink, Linked, Extended, Apart, Within, Roomy, Flatten;
      ghost var n := |parts| - 1;
      ApartSizes(mems, parts, supply);
      ApartDistinct(mems, parts, supply, n);
      ExtendedIs(nrRegisters, parts, next);
      WithLinkWords(nrRegisters, parts[n], gpu);
      patch := EmitLink(gpu);
      assert mems[n][..] == WithLink(nrRegisters, parts[n], gpu).words
          && forall k :: 0 <= k < n ==> mems[k][..] == parts[k].words;
      WrapLinked(next);
    }

    /** The length of a chunk that ends in its link. */
    method WrapLinked(ghost next: Part)
      requires Linked(nrRegisters, parts, false) && Apart(mems, parts, supply) && parts != [] && !invalid
      requires |mems| == |parts|
      requires parts[|parts| - 1].size + LINK <= |parts[|parts| - 1].words|
      requires var n := |parts| - 1;
               && cur == Chunk(Buffer(mems[n], parts[n].gpu), parts[n].size + LINK)
               && root.buffer == Buffer(mems[0], parts[0].gpu)
               && (n > 0 ==> root.pos == parts[0].size + LINK)
               && lengthPatch == (if n == 0 then NoPatch else Patch(mems[n - 1], parts[n - 1].size + 1))
               && mems[n][..] == WithLink(nrRegisters, parts[n], next.gpu).words
               && forall k :: 0 <= k < n ==> mems[k][..] == parts[k].words
      modifies this`root, this`lengthPatch, mems
      ensures |Extended(nrRegisters, parts, next)| == |parts| + 1
      ensures InMemory(mems, Extended(nrRegisters, parts, next)[..|parts|])
      ensures root == Chunk(Buffer(mems[0], parts[0].gpu), parts[0].size + LINK)
    {
      hide WithLink, Linked, Extended, Apart, Flatten;
      ghost var n := |parts| - 1;
      if n > 0 {
        LinkLength(nrRegisters, parts, n - 1);
        ApartDistinct(mems, parts, supply, n - 1);
        ApartRoot(mems, parts, supply);
      }
      Wrap();
      assert n > 0 ==> mems[n - 1][..] == Patched(parts[n - 1], Bytes(parts[n].size + LINK)).words;
      LinkedInMemory(nrRegisters, mems, parts, next);
    }

    /** Move on to a new chunk. */
    method NextChunk()
      requires Valid() && !invalid && allocates && parts != [] && supply != [] && supply[0].cpu.Length >= LINK
      modifies this, buffers
      ensures Valid() && !invalid && Stream() == old(Stream())
      ensures supply == old(supply)[1..] && cur == Chunk(old(supply)[0], 0)
      ensures mems == old(mems) + [old(supply)[0].cpu]
      ensures |parts| == |old(parts)| + 1 && SameCode(parts[..|old(parts)|], old(parts))
    {
      hide Linked, WithLink, Apart, Flatten, SameCode, Patched, Extended, Within, InMemory, Roomy;
      WithinNext(buffers, mems, parts, supply);
      RoomyNext(supply, largest);
      ghost var was := parts;
      var newbuf := supply[0];
      ApartSizes(mems, parts, supply);
      ghost var next := Part(newbuf.gpu, newbuf.cpu[..], 0);
      ExtendedLinks(nrRegisters, was, next);
      ExtendedIs(nrRegisters, was, next);
      ghost var extended := Extended(nrRegisters, was, next);
      ApartNext(mems, was, supply, next, extended);
      var patch := LinkAndWrap(newbuf.gpu, next);
      InMemoryNext(mems, extended, newbuf.cpu);
      MoveTo(patch, extended);
    }

    /** The new buffer is the current chunk. */
    method MoveTo(patch: Patch, ghost more: seq<Part>)
      requires nrRegisters >= LINK && !invalid && supply != [] && parts != [] && |mems| == |parts|
      requires |more| == |parts| + 1
      requires supply[0].Buffer? && Sized(parts) && Sized(more)
      requires Linked(nrRegisters, more, false) && Apart(mems + [supply[0].cpu], more, supply[1..])
      requires Within(buffers, mems + [supply[0].cpu], supply[1..]) && (allocates ==> Roomy(supply[1..], largest))
      requires InMemory(mems + [supply[0].cpu], more) && Flatten(more) == Stream() && SameCode(more[..|parts|], parts)
      requires more[|parts|].size == 0 && more[|parts|].gpu == supply[0].gpu && supply[0].cpu.Length >= LINK
      requires more[|parts| - 1].size == parts[|parts| - 1].size && more[0].gpu == parts[0].gpu
      requires more[0].size == parts[0].size
      requires patch == Patch(mems[|parts| - 1], parts[|parts| - 1].size + 1)
      requires root == Chunk(Buffer(mems[0], parts[0].gpu), parts[0].size + LINK)
      modifies this`supply, this`lengthPatch, this`cur, this`mems, this`parts
      ensures Valid() && Stream() == old(Stream()) && supply == old(supply)[1..] && cur == Chunk(old(supply)[0], 0)
      ensures mems == old(mems) + [old(supply)[0].cpu] && parts == more
    {
      hide Linked, Apart, Flatten, SameCode, Within, Roomy;
      cur := Chunk(supply[0], 0);
      mems := mems + [supply[0].cpu];
      supply := supply[1..];
      lengthPatch := patch;
      parts := more;
    }

    /** The root buffer is only allocated when the first instruction needs it. */
    method FirstChunk()
      requires Valid() && !invalid && parts == [] && supply != [] && supply[0].cpu.Length >= LINK
      modifies this
      ensures Valid() && !invalid && Stream() == [] && |parts| == 1 && parts[0].size == 0
      ensures supply == old(supply)[1..] && root == cur == Chunk(old(supply)[0], 0) && mems == [old(supply)[0].cpu]
    {
      hide Flatten, Extends, SameCode, Extended;
      root := Chunk(supply[0], 0);
      cur := Chunk(supply[0], 0);
      parts := [Part(supply[0].gpu, supply[0].cpu[..], 0)];
      mems := [supply[0].cpu];
      supply := supply[1..];
      FlattenOne(parts[0]);
    }

    /** What is left to write to. Without an allocator the last slots of the buffer are not kept back. */
    ghost function SpaceLeft(): Space
      reads this`invalid, this`cur, this`supply
    {
      if invalid then Full
      else Space(if cur.buffer.NoBuffer? then -1
                 else cur.buffer.cpu.Length - cur.pos - if allocates then LINK + 1 else 0,
                 if allocates then supply else [])
    }

    lemma FullSpace()
      ensures invalid <==> SpaceLeft().Full?
    {
    }

    /** The current chunk can take `num` more instructions, and a link and one slot more. */
    ghost predicate Room(num: nat)
      reads this
    {
      && parts != [] && cur.buffer.Buffer?
      && cur.pos + num + (if allocates then LINK + 1 else 0) <= cur.buffer.cpu.Length
    }

    /** Make room for `num` contiguous instructions, moving on to a new chunk when the current one could
        not take them and a link. What has been written stays as it is. */
    method Reserve(num: nat) returns (ok: bool)
      requires Valid() && num > 0 && (allocates ==> num <= largest)
      modifies this, buffers
      ensures Valid() && ok == !invalid && (old(invalid) ==> invalid) && Stream() == old(Stream())
      ensures ok ==> Room(num)
      ensures old(Room(num) && !invalid) ==> ok && parts == old(parts) && mems == old(mems) && cur == old(cur)
      ensures !ok && !old(invalid) ==> !old(Room(num)) && (allocates ==> old(supply) == [])
      ensures if ok && !old(Room(num))
              then allocates && old(supply) != [] && supply == old(supply)[1..] && cur == Chunk(old(supply)[0], 0)
                   && mems == old(mems) + [old(supply)[0].cpu]
              else supply == old(supply) && mems == old(mems)
      ensures SpaceLeft() == Reserved(old(SpaceLeft()), num)
      ensures old(mems) <= mems && Extends(parts, old(parts))
    {
      hide Linked, Apart, Within, Flatten, SameCode, InMemory, Extends;
      ExtendsItself(nrRegisters, parts);
      ApartSizes(mems, parts, supply);
      if invalid { return false; }
      if !allocates {
        if cur.pos + num > cur.buffer.cpu.Length {
          invalid := true;
          return false;
        }
        return true;
      }
      ok := Rooted();
      if ok { ok := Fitted(num); }
      ExtendsNothing(nrRegisters, parts);
    }

    /** Lazy allocation of the root buffer. */
    method Rooted() returns (ok: bool)
      requires Valid() && !invalid && allocates
      modifies this
      ensures Valid() && ok == !invalid && Stream() == old(Stream())
      ensures ok ==> parts != []
      ensures old(parts) != [] ==> ok && parts == old(parts) && cur == old(cur)
      ensures ok == (old(parts) != [] || old(supply) != [])
      ensures if ok && old(parts) == []
              then supply == old(supply)[1..] && cur == Chunk(old(supply)[0], 0) && mems == [old(supply)[0].cpu]
              else supply == old(supply) && mems == old(mems)
      ensures ok && old(parts) == [] ==> Room(largest)
      ensures old(mems) <= mems && (!ok ==> parts == old(parts))
    {
      assert parts == [] ==> mems == [] && Stream() == [];
      hide Linked, Apart, Within, Flatten, SameCode, InMemory;
      ApartSizes(mems, parts, supply);
      if root.buffer.NoBuffer? {
        if supply == [] {
          invalid := true;
          return false;
        }
        FirstChunk();
      }
      return true;
    }

    /** The current chunk, or the next one. */
    method Fitted(num: nat) returns (ok: bool)
      requires Valid() && !invalid && allocates && parts != [] && num <= largest
      modifies this, buffers
      ensures Valid() && ok == !invalid && Stream() == old(Stream())
      ensures ok ==> Room(num)
      ensures old(Room(num)) ==> ok && parts == old(parts) && mems == old(mems) && cur == old(cur)
      ensures ok == (old(Room(num)) || old(supply) != [])
      ensures if ok && !old(Room(num))
              then supply == old(supply)[1..] && cur == Chunk(old(supply)[0], 0)
                   && mems == old(mems) + [old(supply)[0].cpu]
              else supply == old(supply) && mems == old(mems)
      ensures old(mems) <= mems && Extends(parts, old(parts))
    {
      assert Sized(parts);
      hide Linked, Apart, Within, Flatten, SameCode, InMemory, Extends;
      ExtendsItself(nrRegisters, parts);
      ApartSizes(mems, parts, supply);
      if cur.pos + num + JUMP_SEQ_INSTR_COUNT > cur.buffer.cpu.Length {
        if supply == [] {
          invalid := true;
          return false;
        }
        NextChunk();
        ExtendsSame(nrRegisters, parts, old(parts));
      }
      return true;
    }

    /** Room for `num` instructions, at the end of the stream; they hold whatever the buffer held. */
    method Alloc(num: nat) returns (ok: bool)
      requires Valid() && num > 0 && (allocates ==> num <= largest)
      modifies this, buffers
      ensures Valid() && ok == !invalid && (old(invalid) ==> invalid)
      ensures !ok ==> Stream() == old(Stream())
      ensures ok ==> Room(0) && num <= cur.pos && Stream() == old(Stream()) + Code(parts[|parts| - 1])[cur.pos - num..]
      ensures old(Room(num) && !invalid) ==> ok && cur == old(cur).(pos := old(cur).pos + num)
      ensures SpaceLeft() == Taken(old(SpaceLeft()), num)
      ensures old(mems) <= mems && Extends(parts, old(parts))
    {
      hide Linked, Apart, Within, Flatten, SameCode, Extends, Reserved, Roomy, InMemory;
      ok := Reserve(num);
      if ok {
        ghost var mid := parts;
        Take(num);
        ExtendsTransitive(parts, mid, old(parts));
      }
    }

    method Take(num: nat)
      requires Valid() && !invalid && Room(num)
      modifies this`cur, this`parts
      ensures Valid() && cur == old(cur).(pos := old(cur).pos + num) && |parts| == |old(parts)|
      ensures Stream() == old(Stream()) + Code(parts[|parts| - 1])[cur.pos - num..]
      ensures Extends(parts, old(parts))
    {
      hide Apart, Linked, Flatten, Code, Extends;
      Grown(nrRegisters, parts, num);
      ghost var n, was := |parts| - 1, parts;
      cur := cur.(pos := cur.pos + num);
      parts := was[n := was[n].(size := was[n].size + num)];
      ApartKept(mems, was, supply, parts);
      ExtendsGrown(nrRegisters, was, num);
    }

    /** Copy a block into the room allocated for it at the end of the stream. */
    method Fill(block: seq<Instr>)
      requires Valid() && !invalid && parts != [] && |block| <= cur.pos
      modifies this`parts, buffers
      ensures Valid() && |parts| == |old(parts)| && Extends(parts, old(parts)) && |block| <= |old(Stream())|
      ensures Stream() == old(Stream())[..|old(Stream())| - |block|] + block
    {
      hide Valid, Flatten, Extends;
      ghost var k := |parts| - 1;
      LastAt(parts);
      Rewrite(cur.buffer.cpu, cur.pos - |block|, block, k);
      ghost var s := old(Stream());
      assert Overwrite(s, |s| - |block|, block) == s[..|s| - |block|] + block;
    }

    /** One instruction emitted outside any block. */
    method Append(i: Instr) returns (ok: bool)
      requires Valid() && (allocates ==> 1 <= largest)
      modifies this, buffers
      ensures Valid() && ok == !invalid && (old(invalid) ==> invalid)
      ensures Stream() == old(Stream()) + (if ok then [i] else [])
      ensures (ok ==> parts != [] && 1 <= parts[|parts| - 1].size)
      ensures old(mems) <= mems && Extends(parts, old(parts))
      ensures old(Room(1) && !invalid) ==> ok && cur == old(cur).(pos := old(cur).pos + 1)
      ensures SpaceLeft() == Taken(old(SpaceLeft()), 1)
    {
      hide Valid, Flatten, Extends, Taken, SpaceLeft;
      ok := Alloc(1);
      if ok {
        ghost var mid := parts;
        DropOne(old(Stream()), Code(parts[|parts| - 1]), cur.pos - 1);
        Fill([i]);
        ExtendsTransitive(parts, mid, old(parts));
        LastIsCurrent(this);
      }
    }

    lemma DropOne(a: seq<Instr>, b: seq<Instr>, k: nat)
      requires |b| == k + 1
      ensures var s := a + b[k..]; |s| == |a| + 1 && s[..|s| - 1] == a
    {
    }

    /** Overwrite code already in chunk `k`. */
    method Rewrite(a: array<Instr>, at: nat, block: seq<Instr>, ghost k: nat)
      requires Valid() && k < |parts| && a == mems[k] && at + |block| <= parts[k].size
      modifies this`parts, a
      ensures Valid() && |parts| == |old(parts)| && Extends(parts, old(parts))
      ensures forall j :: 0 <= j < |parts| ==> parts[j].size == old(parts)[j].size
      ensures StreamPos(old(parts), k, at) + |block| <= |old(Stream())|
      ensures Stream() == Overwrite(old(Stream()), StreamPos(old(parts), k, at), block)
    {
      hide Apart, Flatten, Linked, Overwrite, StreamPos, Extends;
      Fits(nrRegisters, parts, k);
      ghost var was := parts;
      ghost var now := was[k].(words := Overwrite(was[k].words, at, block));
      assert a[..] == was[k].words;
      CodeChanged(nrRegisters, was, k, now, at, block);
      ApartDistinct(mems, was, supply, k);
      Copy(a, at, block);
      parts := was[k := now];
      ApartKept(mems, was, supply, parts);
    }

    /** The final length of the last chunk. */
    method WrapLast()
      requires Valid() && !invalid && parts != []
      modifies this`root, this`lengthPatch, mems
      ensures lengthPatch == NoPatch
      ensures InMemory(mems, Wrapped(nrRegisters, parts, Bytes(parts[|parts| - 1].size)))
      ensures root == Chunk(Buffer(mems[0], parts[0].gpu), parts[0].size + if |parts| > 1 then LINK else 0)
    {
      hide Linked, Apart, Flatten, Wrapped, Within, Roomy;
      ghost var n := |parts| - 1;
      ApartSizes(mems, parts, supply);
      WrappedIs(nrRegisters, parts, Bytes(cur.pos));
      if n > 0 {
        ApartDistinct(mems, parts, supply, n - 1);
        ApartRoot(mems, parts, supply);
      }
      label wrap:
      Wrap();
      assert forall j :: 0 <= j < |mems| && j != n - 1 ==> mems[j][..] == old@wrap(mems[j][..]);
    }

    /** Finish the stream: wrap the last chunk and let nothing be added. */
    method End()
      requires Valid() && !invalid
      modifies this, buffers
      ensures cur == Chunk(NoBuffer, 0) && lengthPatch == NoPatch
      ensures nrRegisters >= LINK && InMemory(mems, parts) && Linked(nrRegisters, parts, true)
      ensures Apart(mems, parts, supply)
      ensures mems == old(mems) && Stream() == old(Stream()) && SameCode(parts, old(parts)) && !invalid
      ensures parts == [] ==> root.pos == 0
      ensures parts != [] ==>
                && root.buffer == Buffer(mems[0], parts[0].gpu)
                && root.pos == parts[0].size + if |parts| > 1 then LINK else 0
    {
      hide Linked, Apart, Flatten, Wrapped, InMemory, Within, Roomy, SameCode;
      ghost var was := parts;
      ApartSizes(mems, parts, supply);
      if root.buffer.Buffer? {
        WrappedLinks(nrRegisters, was);
        WrappedIs(nrRegisters, was, Bytes(was[|was| - 1].size));
        WithinAll(buffers, mems, supply);
        WrapLast();
        parts := Wrapped(nrRegisters, was, Bytes(was[|was| - 1].size));
        SameFlatten(parts, was);
        ApartKept(mems, was, supply, parts);
      } else {
        NothingLinked(nrRegisters, parts);
        SameCodeItself(was);
        assert was[..|was|] == was;
        Wrap();
      }
      cur := Chunk(NoBuffer, 0);
    }
  }

  lemma LastIsCurrent(out: CommandStream)
    requires out.Valid() && out.parts != []
    ensures out.cur.pos == out.parts[|out.parts| - 1].size
  {
  }

  /** The position in the stream of instruction `at` of chunk `k`. */
  function StreamPos(parts: seq<Part>, k: nat, at: nat): nat
    requires Sized(parts) && k < |parts|
  {
    |Flatten(parts[..k])| + at
  }

  lemma LastAt(parts: seq<Part>)
    requires Sized(parts) && parts != []
    ensures StreamPos(parts, |parts| - 1, parts[|parts| - 1].size) == |Flatten(parts)|
  {
  }

  lemma OverwriteConcat(a: seq<Instr>, b: seq<Instr>, at: nat, block: seq<Instr>)
    ensures at + |block| <= |a| ==> Overwrite(a + b, at, block) == Overwrite(a, at, block) + b
    ensures at + |block| <= |b| ==> Overwrite(a + b, |a| + at, block) == a + Overwrite(b, at, block)
  {
  }

  lemma {:induction false} FlattenRewrite(parts: seq<Part>, k: nat, now: Part, at: nat, block: seq<Instr>)
    requires Sized(parts) && k < |parts| && at + |block| <= parts[k].size
    requires now.size == parts[k].size && now.words == Overwrite(parts[k].words, at, block)
    ensures StreamPos(parts, k, at) + |block| <= |Flatten(parts)|
    ensures Flatten(parts[k := now]) == Overwrite(Flatten(parts), StreamPos(parts, k, at), block)
    decreases |parts|
  {
    hide Flatten, StreamPos, Code, Overwrite;
    var n := |parts| - 1;
    var head, tail, pos := Flatten(parts[..n]), Code(parts[n]), StreamPos(parts, k, at);
    FlattenLast(parts);
    FlattenLast(parts[k := now]);
    if k == n {
      assert parts[k := now][..n] == parts[..n];
      PosOfLast(parts, at);
      CodeRewritten(parts[k], now, at, block);
      OverwriteConcat(head, tail, at, block);
    } else {
      FlattenRewrite(parts[..n], k, now, at, block);
      assert parts[k := now][..n] == parts[..n][k := now];
      PosInFront(parts, k, at);
      OverwriteConcat(head, tail, pos, block);
    }
  }

  lemma FlattenLast(parts: seq<Part>)
    requires Sized(parts) && parts != []
    ensures Flatten(parts) == Flatten(parts[..|parts| - 1]) + Code(parts[|parts| - 1])
  {
  }

  lemma PosOfLast(parts: seq<Part>, at: nat)
    requires Sized(parts) && parts != []
    ensures StreamPos(parts, |parts| - 1, at) == |Flatten(parts[..|parts| - 1])| + at
  {
  }

  lemma PosInFront(parts: seq<Part>, k: nat, at: nat)
    requires Sized(parts) && k < |parts| - 1
    ensures StreamPos(parts, k, at) == StreamPos(parts[..|parts| - 1], k, at)
  {
    assert parts[..|parts| - 1][..k] == parts[..k];
  }

  lemma CodeRewritten(p: Part, now: Part, at: nat, block: seq<Instr>)
    requires p.size <= |p.words| && at + |block| <= p.size && now.size == p.size
    requires now.words == Overwrite(p.words, at, block)
    ensures Code(now) == Overwrite(Code(p), at, block) && |Code(p)| == p.size
  {
  }

  lemma CodeChanged(nrRegisters: nat, parts: seq<Part>, k: nat, now: Part, at: nat, block: seq<Instr>)
    requires Linked(nrRegisters, parts, false) && k < |parts| && at + |block| <= parts[k].size
    requires now == parts[k].(words := Overwrite(parts[k].words, at, block))
    ensures Linked(nrRegisters, parts[k := now], false)
    ensures StreamPos(parts, k, at) + |block| <= |Flatten(parts)|
    ensures Flatten(parts[k := now]) == Overwrite(Flatten(parts), StreamPos(parts, k, at), block)
    ensures Extends(parts[k := now], parts)
  {
    var r := parts[k := now];
    forall j | 0 <= j < |parts| - 1 ensures LinkedAt(nrRegisters, r, false,
                                                     j) { assert LinkedAt(nrRegisters, parts, false, j); }
    FlattenRewrite(parts, k, now, at, block);
    forall j | 0 <= j < |parts| ensures StreamPos(r, j, 0) == StreamPos(parts, j, 0) {
      SameSizes(r[..j], parts[..j]);
    }
  }

  lemma {:induction false} SameSizes(a: seq<Part>, b: seq<Part>)
    requires Sized(a) && Sized(b) && |a| == |b| && forall k :: 0 <= k < |a| ==> a[k].size == b[k].size
    ensures |Flatten(a)| == |Flatten(b)|
    decreases |a|
  {
    if a != [] { SameSizes(a[..|a| - 1], b[..|a| - 1]); }
  }

  lemma ApartDistinct(mems: seq<array<Instr>>, parts: seq<Part>, supply: seq<Buffer>, k: nat)
    requires Apart(mems, parts, supply) && k < |mems|
    ensures |mems| == |parts| && forall j :: 0 <= j < |mems| && j != k ==> mems[j] != mems[k]
  {
  }

  lemma ApartKept(mems: seq<array<Instr>>, parts: seq<Part>, supply: seq<Buffer>, now: seq<Part>)
    requires Apart(mems, parts, supply) && |now| == |parts|
             && forall k :: 0 <= k < |parts| ==> now[k].gpu == parts[k].gpu
    ensures Apart(mems, now, supply)
  {
  }

  lemma ApartRoot(mems: seq<array<Instr>>, parts: seq<Part>, supply: seq<Buffer>)
    requires Apart(mems, parts, supply) && |parts| > 1
    ensures parts[0].gpu != parts[|parts| - 1].gpu
  {
  }

  lemma WithinAll(buffers: set<array<Instr>>, mems: seq<array<Instr>>, supply: seq<Buffer>)
    requires Within(buffers, mems, supply)
    ensures forall a :: a in mems ==> a in buffers
  {
  }

  lemma WrappedIs(nrRegisters: nat, parts: seq<Part>, length: Word)
    requires Linked(nrRegisters, parts, false) && parts != []
    ensures var n := |parts| - 1;
            var r := Wrapped(nrRegisters, parts, length);
            && |r| == |parts|
            && (forall k :: 0 <= k < |parts| ==> r[k].gpu == parts[k].gpu && r[k].size == parts[k].size)
            && (forall k :: 0 <= k < |parts| && k != n - 1 ==> r[k] == parts[k])
            && (n > 0 ==>
                  && parts[n - 1].size + 1 < |parts[n - 1].words| && parts[n - 1].words[parts[n - 1].size + 1].Move32?
                  && r[n - 1] == Patched(parts[n - 1], length))
  {
    if |parts| >= 2 { assert LinkedAt(nrRegisters, parts, false, |parts| - 2); }
  }

  lemma NothingLinked(nrRegisters: nat, parts: seq<Part>)
    requires parts == [] && nrRegisters >= LINK
    ensures Linked(nrRegisters, parts, true)
  {
  }

  lemma Fits(nrRegisters: nat, parts: seq<Part>, k: nat)
    requires Linked(nrRegisters, parts, false) && k < |parts|
    ensures Sized(parts) && parts[k].size <= |parts[k].words|
  {
  }

  lemma Grown(nrRegisters: nat, parts: seq<Part>, num: nat)
    requires Linked(nrRegisters, parts, false) && parts != []
    requires parts[|parts| - 1].size + num <= |parts[|parts| - 1].words|
    ensures var n := |parts| - 1;
            var last := parts[n].(size := parts[n].size + num);
            var r := parts[n := last];
            Linked(nrRegisters, r, false) && Flatten(r) == Flatten(parts) + Code(last)[parts[n].size..]
  {
    var n := |parts| - 1;
    var last := parts[n].(size := parts[n].size + num);
    assert Code(last) == Code(parts[n]) + last.words[parts[n].size..last.size];
    assert Code(last)[parts[n].size..] == last.words[parts[n].size..last.size];
    FlattenAppend(parts, last, last.words[parts[n].size..last.size]);
    LastChanged(nrRegisters, parts, last);
  }

  /** Code once written is never moved. */
  ghost predicate Extends(now: seq<Part>, was: seq<Part>) {
    && Sized(now) && Sized(was) && |was| <= |now|
    && forall k :: 0 <= k < |was| ==>
         now[k].gpu == was[k].gpu && was[k].size <= now[k].size && StreamPos(now, k, 0) == StreamPos(was, k, 0)
  }

  lemma ExtendsAt(now: seq<Part>, was: seq<Part>, k: nat, at: nat)
    requires Extends(now, was) && k < |was| && at <= was[k].size
    ensures k < |now| && at <= now[k].size && StreamPos(now, k, at) == StreamPos(was, k, at)
  {
    assert StreamPos(now, k, 0) == StreamPos(was, k, 0);
  }

  lemma ExtendsItself(nrRegisters: nat, parts: seq<Part>)
    requires Linked(nrRegisters, parts, false)
    ensures Extends(parts, parts)
  {
  }

  lemma ExtendsNothing(nrRegisters: nat, parts: seq<Part>)
    requires Linked(nrRegisters, parts, false)
    ensures Extends(parts, [])
  {
  }

  lemma ExtendsTransitive(a: seq<Part>, b: seq<Part>, c: seq<Part>)
    requires Extends(a, b) && Extends(b, c)
    ensures Extends(a, c)
  {
  }

  lemma ExtendsSame(nrRegisters: nat, now: seq<Part>, was: seq<Part>)
    requires Linked(nrRegisters, now, false) && |was| <= |now| && SameCode(now[..|was|], was)
    ensures Extends(now, was)
  {
    forall k | 0 <= k < |was|
      ensures now[k].gpu == was[k].gpu && was[k].size <= now[k].size && StreamPos(now, k, 0) == StreamPos(was, k, 0)
    {
      assert now[..|was|][k] == now[k];
      assert forall j :: 0 <= j < k ==> now[..k][j] == now[..|was|][j] && was[..k][j] == was[j];
      SameFlatten(now[..k], was[..k]);
    }
  }

  lemma ExtendsGrown(nrRegisters: nat, parts: seq<Part>, num: nat)
    requires Linked(nrRegisters, parts, false) && parts != []
    requires parts[|parts| - 1].size + num <= |parts[|parts| - 1].words|
    ensures var n := |parts| - 1;
            Extends(parts[n := parts[n].(size := parts[n].size + num)], parts)
  {
    var n := |parts| - 1;
    var r := parts[n := parts[n].(size := parts[n].size + num)];
    assert forall k :: 0 <= k < |parts| ==> r[..k] == parts[..k];
  }

  /** The last chunk can be changed without touching any link, as long as it starts at the same address. */
  lemma LastChanged(nrRegisters: nat, parts: seq<Part>, last: Part)
    requires Linked(nrRegisters, parts, false) && parts != []
    requires last.gpu == parts[|parts| - 1].gpu && last.size <= |last.words|
    ensures Linked(nrRegisters, parts[|parts| - 1 := last], false)
  {
    var r := parts[|parts| - 1 := last];
    forall k | 0 <= k < |parts| - 1 ensures LinkedAt(nrRegisters, r, false,
                                                     k) { assert LinkedAt(nrRegisters, parts, false, k); }
  }

  lemma WithinNext(buffers: set<array<Instr>>, mems: seq<array<Instr>>, parts: seq<Part>, supply: seq<Buffer>)
    requires Apart(mems, parts, supply) && Within(buffers, mems, supply) && supply != []
    ensures supply[0].Buffer? && Within(buffers, mems + [supply[0].cpu], supply[1..])
    ensures forall a :: a in mems ==> a in buffers
  {
  }

  lemma SameCodeItself(parts: seq<Part>)
    requires Sized(parts)
    ensures SameCode(parts[..|parts|], parts)
  {
    assert parts[..|parts|] == parts;
  }

  lemma ApartSizes(mems: seq<array<Instr>>, parts: seq<Part>, supply: seq<Buffer>)
    requires Apart(mems, parts, supply)
    ensures |mems| == |parts|
    ensures supply != [] ==> supply[0].Buffer? && supply[0].cpu !in mems
  {
  }

  lemma LinkLength(nrRegisters: nat, parts: seq<Part>, k: nat)
    requires Linked(nrRegisters, parts, false) && k < |parts| - 1
    ensures parts[k].size + LINK <= |parts[k].words| && parts[k].words[parts[k].size + 1].Move32?
  {
    assert LinkedAt(nrRegisters, parts, false, k);
  }

  lemma WithLinkWords(nrRegisters: nat, p: Part, gpu: nat)
    requires nrRegisters >= LINK && p.size + LINK <= |p.words|
    ensures WithLink(nrRegisters, p, gpu) == p.(words := WithLink(nrRegisters, Part(0, p.words, p.size), gpu).words)
  {
  }

  /** What is in memory once the link to the next chunk is there. */
  lemma LinkedInMemory(nrRegisters: nat, mems: seq<array<Instr>>, parts: seq<Part>, next: Part)
    requires Linked(nrRegisters, parts, false) && parts != [] && |mems| == |parts|
    requires parts[|parts| - 1].size + LINK <= |parts[|parts| - 1].words|
    requires var n := |parts| - 1;
             && mems[n][..] == WithLink(nrRegisters, parts[n], next.gpu).words
             && (n > 0 ==>
                 && parts[n - 1].size + 1 < |parts[n - 1].words|
                 && parts[n - 1].words[parts[n - 1].size + 1].Move32?
                           && mems[n - 1][..] == Patched(parts[n - 1], Bytes(parts[n].size + LINK)).words)
             && forall k :: 0 <= k < n - 1 ==> mems[k][..] == parts[k].words
    ensures |Extended(nrRegisters, parts, next)| == |parts| + 1
    ensures InMemory(mems, Extended(nrRegisters, parts, next)[..|parts|])
  {
    hide Linked, WithLink, Patched, Extended;
    ExtendedIs(nrRegisters, parts, next);
    var n, r := |parts| - 1, Extended(nrRegisters, parts, next);
    forall k | 0 <= k <= n ensures mems[k][..] == r[..n + 1][k].words {
      if k < n - 1 { assert r[k] == parts[k]; }
    }
  }

  lemma ExtendedIs(nrRegisters: nat, parts: seq<Part>, next: Part)
    requires Linked(nrRegisters, parts, false) && parts != []
    requires parts[|parts| - 1].size + LINK <= |parts[|parts| - 1].words|
    ensures var n := |parts| - 1;
            var r := Extended(nrRegisters, parts, next);
            && |r| == n + 2 && r[n + 1] == next
            && r[n] == WithLink(nrRegisters, parts[n], next.gpu)
            && (n > 0 ==>
                  && parts[n - 1].size + 1 < |parts[n - 1].words| && parts[n - 1].words[parts[n - 1].size + 1].Move32?
                  && r[n - 1] == Patched(parts[n - 1], Bytes(parts[n].size + LINK)))
            && (forall k :: 0 <= k < n - 1 ==> r[k] == parts[k])
            && forall k :: 0 <= k <= n ==> r[k].size == parts[k].size && r[k].gpu == parts[k].gpu
  {
    if |parts| >= 2 { assert LinkedAt(nrRegisters, parts, false, |parts| - 2); }
  }
}
