/** Maybe blocks that are patched in the chunks, after everything has been recorded. */
module Late {
  import opened Isa
  import opened Structured
  import opened B = Builder
  import opened Handles
  import opened Orders
  import opened Choices
  import opened Program
  import opened Sequences
  import Chunks
  import Constructs
  import Driver
  import Labels
  import Linking
  import Maybes
  import Patching
  import Preservation
  import Spaces
  import Tidy

  lemma ApplyNothing(code: seq<Instr>)
    ensures Apply([], code) == code
  {
  }

  lemma ApplyMore(before: seq<Instr>, hs: seq<Handle>, code: seq<Instr>, after: seq<Instr>, h: Handle)
    requires h.at + |h.instrs| <= |code|
    ensures Chunks.Overwrite(before + Apply(hs, code) + after, |before| + h.at, h.instrs)
                == before + Apply(hs + [h], code) + after
  {
    var now := Chunks.Overwrite(before + Apply(hs, code) + after, |before| + h.at, h.instrs);
    var later := before + Apply(hs + [h], code) + after;
    forall i | 0 <= i < |now| ensures now[i] == later[i] {
      if |before| <= i < |before| + |code| {
        FillingConcat(hs, [h], code[i - |before|], i - |before|);
        assert [h][1..] == [];
      }
    }
  }

  lemma ApplyEmpty(hs: seq<Handle>, code: seq<Instr>, h: Handle)
    requires h.instrs == []
    ensures Apply(hs + [h], code) == Apply(hs, code)
  {
    forall i | 0 <= i < |code| ensures Filling(hs + [h], code[i], i) == Filling(hs, code[i], i) {
      FillingConcat(hs, [h], code[i], i);
      assert [h][1..] == [];
    }
  }

  /** Patch the blocks of one program, in the chunk that holds it, in the given order. */
  method PatchAll(b: Builder, ms: seq<MaybeBlock>, order: seq<nat>, ghost hs: seq<Handle>, ghost before: seq<Instr>,
                  ghost code: seq<Instr>, ghost after: seq<Instr>)
    requires b.out.Valid() && Driver.Adds(ms, [], hs) && Within(hs, 0, |code|) && Located(ms, b.out, |before|)
    requires (forall k :: 0 <= k < |order| ==> order[k] < |hs|) && b.out.Stream() == before + code + after
    modifies b`instrs, b.out`parts, b.out.buffers
    ensures b.out.Valid() && b.out.Stream() == before + Apply(Ordered(hs, order), code) + after
    ensures |b.out.parts| == |old(b.out.parts)| && Chunks.Extends(b.out.parts, old(b.out.parts))
    ensures b.instrs == old(b.instrs)
    ensures forall j :: 0 <= j < |b.out.parts| ==> b.out.parts[j].size == old(b.out.parts)[j].size
    ensures Located(ms, b.out, |before|)
  {
    hide Chunks.CommandStream.Valid, Chunks.Flatten, Chunks.Extends, Chunks.Overwrite, Apply, Chunks.StreamPos;
    ghost var was := b.out.parts;
    ApplyNothing(code);
    b.Steady(b.out);
    BuffersHeld(b.out);
    var k := 0;
    while k < |order|
      invariant 0 <= k <= |order| && b.out.Valid()
      invariant b.out.Stream() == before + Apply(Ordered(hs, order[..k]), code) + after
      invariant |b.out.parts| == |was| && Chunks.Extends(b.out.parts, was) && b.instrs == old(b.instrs)
      invariant forall j :: 0 <= j < |b.out.parts| ==> b.out.parts[j].size == was[j].size
      invariant Located(ms, b.out, |before|)
    {
      var m := ms[order[k]];
      ghost var h, mid := hs[order[k]], b.out.parts;
      assert Ordered(hs, order[..k]) + [h] == Ordered(hs, order[..k + 1]);
      if m.instrs != [] {
        ApplyMore(before, Ordered(hs, order[..k]), code, after, h);
        assert m.At(b.out, |before| + m.patchPos);
        assert forall i :: 0 <= i < |ms| && ms[i].instrs != [] ==> ms[i].In(mid, b.out.mems, |before| + ms[i].patchPos);
        Constructs.PatchMaybe(b, m, |before| + m.patchPos);
        Chunks.ExtendsTransitive(b.out.parts, mid, was);
        StillLocated(ms, b.out, |before|, mid);
      } else {
        ApplyEmpty(Ordered(hs, order[..k]), code, h);
      }
      k := k + 1;
    }
    assert order[..k] == order;
  }

  lemma StillLocated(ms: seq<MaybeBlock>, out: Chunks.CommandStream, pos: nat, was: seq<Chunks.Part>)
    requires forall i :: 0 <= i < |ms| && ms[i].instrs != [] ==> ms[i].In(was, out.mems, pos + ms[i].patchPos)
    requires Chunks.Extends(out.parts, was) && |out.parts| == |was|
    ensures Located(ms, out, pos)
  {
    hide Chunks.Extends;
    forall i | 0 <= i < |ms| && ms[i].instrs != [] ensures ms[i].At(out, pos + ms[i].patchPos) {
      ms[i].InKept(was, out.mems, out.parts, out.mems, pos + ms[i].patchPos);
    }
  }

  // ----- The chunks stay sound ------------------------------------------------------------------------

  /** Rewriting a block, which is in one chunk, as another that stands on its own. */
  lemma SoundPatched(nr: nat, was: seq<Chunks.Part>, now: seq<Chunks.Part>, before: seq<Instr>, code: seq<Instr>,
                     code': seq<Instr>, after: seq<Instr>)
    requires Sound(nr, was) && Chunks.Extends(now, was) && |now| == |was|
             && forall j :: 0 <= j < |now| ==> now[j].size == was[j].size
    requires Chunks.Flatten(was) == before + code + after && Chunks.Flatten(now) == before + code' + after
    requires |code| == |code'|
    requires SoundCode(nr, code') && InOneChunk(was, |before|, |code|)
    ensures Sound(nr, now)
  {
    hide Chunks.Flatten, Chunks.StreamPos, Chunks.Code, SoundCode, InOneChunk;
    forall j | 0 <= j < |now| ensures SoundCode(nr, Chunks.Code(now[j])) {
      assert SoundCode(nr, Chunks.Code(was[j]));
      ReplacedInside(before, code, code', after);
      ChunkPatched(nr, was, now, |before|, code', j);
    }
  }

  /** `now` has `code` at `pos` in the place of what `was` had there. */
  ghost predicate Replaced(was: seq<Instr>, now: seq<Instr>, pos: nat, code: seq<Instr>) {
    && pos + |code| <= |was| == |now| && now[pos..pos + |code|] == code
    && forall i :: 0 <= i < |was| && !(pos <= i < pos + |code|) ==> now[i] == was[i]
  }

  lemma ReplacedInside(before: seq<Instr>, code: seq<Instr>, code': seq<Instr>, after: seq<Instr>)
    requires |code| == |code'|
    ensures Replaced(before + code + after, before + code' + after, |before|, code')
  {
  }

  lemma ChunkPatched(nr: nat, was: seq<Chunks.Part>, now: seq<Chunks.Part>, pos: nat, code: seq<Instr>, j: nat)
    requires nr >= Chunks.LINK && Chunks.Extends(now, was) && |now| == |was| && j < |now| && now[j].size == was[j].size
    requires Replaced(Chunks.Flatten(was), Chunks.Flatten(now), pos, code)
    requires SoundCode(nr, code) && InOneChunk(was, pos, |code|) && SoundCode(nr, Chunks.Code(was[j]))
    ensures SoundCode(nr, Chunks.Code(now[j]))
  {
    hide Chunks.Flatten, Chunks.StreamPos, Chunks.Code, SoundCode, Chunks.Extends, InOneChunk, Replaced;
    ExtendsSized(now, was);
    Stretch(was, j);
    Stretch(now, j);
    Positions(now, was, j);
    InOrOut(was, j, pos, |code|);
    StretchPatched(nr, Chunks.Flatten(was), Chunks.Flatten(now), pos, code, Chunks.StreamPos(was, j, 0), was[j].size);
  }

  lemma ExtendsSized(now: seq<Chunks.Part>, was: seq<Chunks.Part>)
    requires Chunks.Extends(now, was)
    ensures Chunks.Sized(now) && Chunks.Sized(was)
  {
  }

  /** A block in one chunk is in chunk `j` or has nothing to do with it. */
  lemma InOrOut(parts: seq<Chunks.Part>, j: nat, pos: nat, n: nat)
    requires Chunks.Sized(parts) && j < |parts| && InOneChunk(parts, pos, n)
    ensures var at := Chunks.StreamPos(parts, j, 0);
            n == 0 || at + parts[j].size <= pos || pos + n <= at || (at <= pos && pos + n <= at + parts[j].size)
  {
    hide Chunks.StreamPos;
    if n != 0 {
      var k: nat :| Contains(parts, k, pos, n);
      if k < j { StretchOrder(parts, k, j); }
      if j < k { StretchOrder(parts, j, k); }
    }
  }

  lemma StretchPatched(nr: nat, was: seq<Instr>, now: seq<Instr>, pos: nat, code: seq<Instr>, at: nat, n: nat)
    requires nr >= Chunks.LINK && Replaced(was, now, pos, code) && at + n <= |was| && SoundCode(nr, code)
    requires code == [] || at + n <= pos || pos + |code| <= at || (at <= pos && pos + |code| <= at + n)
    requires SoundCode(nr, was[at..at + n])
    ensures SoundCode(nr, now[at..at + n])
  {
    var old', new' := was[at..at + n], now[at..at + n];
    forall i | 0 <= i < n
      ensures Linking.Below(new'[i], Chunks.LenReg(nr)) && (new'[i].Branch? ==> 0 <= i + 1 + new'[i].rel <= n)
    {
      if pos <= at + i < pos + |code| {
        assert now[pos..pos + |code|][at + i - pos] == code[at + i - pos];
      } else {
        assert new'[i] == old'[i];
      }
    }
  }

  // ----- Patching late ----------------------------------------------------------------------------------

  /** Patching maybe blocks of a program after all, each as often as one likes, in any order. The chunks stay sound,
      and the stream is what it would have been with exactly the blocks `want` filled in from the start if and only
      if the order meets `want`. */
  method PatchLate(b: Builder, ms: seq<MaybeBlock>, order: seq<nat>, ghost s: Stmt, ghost want: seq<bool>,
                   ghost g: Structured.Ctx, ghost before: seq<Instr>, ghost after: seq<Instr>)
    requires b.out.Valid() && Sound(b.out.nrRegisters, b.out.parts) && WellFormed(s, false, false)
    requires Tidy.UsesBelow(s, Chunks.LenReg(b.out.nrRegisters)) && |want| == |Flags(s)|
    requires var hs := Kept(b.lsSlot, s, g, IDLE, 0, 0);
             Driver.Adds(ms, [], hs) && InRange(hs, order)
    requires var code := Gen(b.lsSlot, s, g, IDLE).code;
             && b.out.Stream() == before + Preservation.Finish(code) + after
             && Located(ms, b.out, |before|) && InOneChunk(b.out.parts, |before|, |code|)
    modifies b`instrs, b.out`parts, b.out.buffers
    ensures b.out.Valid() && Sound(b.out.nrRegisters, b.out.parts) && b.instrs == old(b.instrs)
    ensures var hs := Kept(b.lsSlot, s, g, IDLE, 0, 0);
            && |hs| == |want|
            && (b.out.Stream() == before + Preservation.Finish(Gen(b.lsSlot, With(s, want), g, IDLE).code) + after
                <==> Meets(hs, Flags(s), order, want, Patching.Full(b.lsSlot, s, g)))
    ensures |b.out.parts| == |old(b.out.parts)| && Chunks.Extends(b.out.parts, old(b.out.parts))
    ensures Located(ms, b.out, |before|)
  {
    hide Chunks.CommandStream.Valid, Chunks.Flatten, Chunks.Extends, Apply, Chunks.StreamPos, Gen, Kept, WellFormed,
         Sound, SoundCode, InOneChunk, Meets, Flags, With, Nested, Patching.Full, Tidy.UsesBelow, Within,
         Linking.Closed, Linking.AllBelow, Preservation.Finish;
    ghost var nr, hs, was := b.out.nrRegisters, Kept(b.lsSlot, s, g, IDLE, 0, 0), b.out.parts;
    ghost var code, chosen := Preservation.Finish(Gen(b.lsSlot, s, g, IDLE).code),
        Preservation.Finish(Gen(b.lsSlot, With(s, want), g, IDLE).code);
    AllKept(b.lsSlot, s, g);
    PatchAll(b, ms, order, hs, before, code, after);
    PatchedSound(b.lsSlot, s, g, order, nr, was);
    SoundPatched(nr, was, b.out.parts, before, code, Apply(Ordered(hs, order), code), after);
    Patching.PatchedExactly(b.lsSlot, s, g, order, want);
    WithSize(b.lsSlot, s, want, g, IDLE);
    InTheMiddle(before, Apply(Ordered(hs, order), code), chosen, after);
  }

  lemma InTheMiddle(before: seq<Instr>, x: seq<Instr>, y: seq<Instr>, after: seq<Instr>)
    requires |x| == |y|
    ensures before + x + after == before + y + after <==> x == y
  {
    var a, b := before + x + after, before + y + after;
    assert a[|before|..|before| + |x|] == x && b[|before|..|before| + |y|] == y;
  }

  /** Whatever the order, what is patched stands on its own. */
  lemma PatchedSound(ls: nat, s: Stmt, g: Structured.Ctx, order: seq<nat>, nr: nat, parts: seq<Chunks.Part>)
    requires nr >= Chunks.LINK && WellFormed(s, false, false) && Tidy.UsesBelow(s, Chunks.LenReg(nr))
    requires Sound(nr, parts) && InRange(Kept(ls, s, g, IDLE, 0, 0), order)
    ensures SoundCode(nr, Apply(Ordered(Kept(ls, s, g, IDLE, 0, 0), order),
                                Preservation.Finish(Gen(ls, s, g, IDLE).code)))
  {
    hide Gen, Kept, WellFormed, Maybes.Filled, Tidy.UsesBelow, Apply, Preservation.Finish, Linking.Closed,
         Linking.AllBelow, Sound, SoundCode;
    Patching.PatchedMixed(ls, s, g, order);
    Maybes.FilledFormed(s, false, false);
    FilledBelow(s, Chunks.LenReg(nr));
    Tidy.FinishedTidy(ls, Maybes.Filled(s), g, IDLE, Chunks.LenReg(nr));
    SoundMeans(nr, parts, Patching.Full(ls, s, g));
    SoundMixed(nr, Patching.Full(ls, s, g), Apply(Ordered(Kept(ls, s, g, IDLE, 0, 0), order),
                                                  Preservation.Finish(Gen(ls, s, g, IDLE).code)));
  }

  lemma SoundMixed(nr: nat, full: seq<Instr>, code: seq<Instr>)
    requires nr >= Chunks.LINK && SoundCode(nr, full) && |code| == |full|
    requires forall i :: 0 <= i < |code| ==> code[i] == full[i] || code[i] == Nop
    ensures SoundCode(nr, code)
  {
  }

  lemma SoundMeans(nr: nat, parts: seq<Chunks.Part>, code: seq<Instr>)
    requires Sound(nr, parts) && Linking.Closed(code) && Linking.AllBelow(code, Chunks.LenReg(nr))
    ensures nr >= Chunks.LINK && SoundCode(nr, code)
  {
  }

  lemma AllKept(ls: nat, s: Stmt, g: Structured.Ctx)
    ensures Within(Kept(ls, s, g, IDLE, 0, 0), 0, |Gen(ls, s, g, IDLE).code|)
  {
    hide Gen, Kept;
    Patching.KeptNested(ls, s, g, IDLE, 0, 0);
  }

  lemma {:induction false} FilledBelow(s: Stmt, top: Reg)
    requires Tidy.UsesBelow(s, top)
    ensures Tidy.UsesBelow(Maybes.Filled(s), top)
    decreases s
  {
    match s
    case Seq(a, b) => FilledBelow(a, top); FilledBelow(b, top);
    case If(_, _, t) => FilledBelow(t, top);
    case IfElse(_, _, t, e) => FilledBelow(t, top); FilledBelow(e, top);
    case While(_, _, body) => FilledBelow(body, top);
    case Match(_, _, cs) => FilledCasesBelow(cs, top);
    case Maybe(_, body) => FilledBelow(body, top);
    case _ =>
  }

  lemma {:induction false} FilledCasesBelow(cs: Cases, top: Reg)
    requires Tidy.CasesBelow(cs, top)
    ensures Tidy.CasesBelow(Maybes.FilledCases(cs), top)
    decreases cs
  {
    match cs
    case NoCase =>
    case Default(body) => FilledBelow(body, top);
    case Case(_, body, rest) => FilledBelow(body, top); FilledCasesBelow(rest, top);
  }

  /** Patching the maybe blocks of the program `s` in this order fills in exactly the blocks `want`. */
  ghost predicate Chosen(ls: nat, s: Stmt, g: Structured.Ctx, order: seq<nat>, want: seq<bool>) {
    var hs := Kept(ls, s, g, IDLE, 0, 0);
    |hs| == |Flags(s)| == |want| && InRange(hs, order) && Meets(hs, Flags(s), order, want, Patching.Full(ls, s, g))
  }

  /** End to end: commands are recorded, then some maybe blocks of one of them are patched in the chunks, and the
      stream is finished. It means what it would mean if that program had had these blocks, and no others, from the
      start. */
  method RecordLate(b: Builder, cs: seq<Command>, k: nat, order: seq<nat>, ghost want: seq<bool>)
    requires Idling(b) && b.out.Valid() && Sound(b.out.nrRegisters, b.out.parts) && TakesAll(b, cs, Now(b)) && k < |cs|
    requires !cs[k].Outside?
    requires Chosen(b.lsSlot, StmtOf(cs[k]), CtxAfter(b.lsSlot, cs[..k], Now(b)), order, want)
    requires forall a :: a in b.out.buffers ==> (a.Length + Chunks.LINK) * 8 < W32
    modifies b, b.cur, b.pending, b.pending.block, b.pending.endLabel, b.pending.lsState, b.FlushFrame()
    ensures b.out.invalid <==> Spaces.AfterAll(old(b.out.SpaceLeft()), b.lsSlot, cs, 0, |cs|, old(Now(b))).Full?
    ensures !b.out.invalid ==> Finished(b, old(b.out.Stream()), All(Patched(cs, k, want)))
  {
    hide Gen, Kept, Sound, Chunks.CommandStream.Valid, Chunks.Flatten, Chunks.Extends, TakesAll, All, CtxAfter,
         WellFormed, Preservation.Finish, Finished, Linking.Closed, Linking.AllBelow, Tidy.UsesBelow, InOneChunk,
         Flags, With, Chosen, Formed, Program.Compilable, Chunks.CommandStream.SpaceLeft, Spaces.AfterOne,
         Spaces.CodeSize;
    ghost var g, before, space := Now(b), b.out.Stream(), b.out.SpaceLeft();
    ChosenSize(b.lsSlot, StmtOf(cs[k]), CtxAfter(b.lsSlot, cs[..k], g), order, want);
    TakesFormed(b, cs, g);
    SoundStream(b.out.nrRegisters, b.out.parts);
    NothingRecorded(b.lsSlot, g);
    assert cs[..0] == [] && cs[..|cs|] == cs;
    EmitFrom(b, cs, 0, k, g, before);
    b.out.FullSpace();
    Spaces.AfterJoined(space, b.lsSlot, cs, 0, k, |cs|, g);
    if b.out.invalid {
      Spaces.AfterFull(b.lsSlot, cs, k, |cs|, g);
      return;
    }
    ghost var pos := |b.out.Stream()|;
    var ms := EmitNext(b, cs, k, g, before);
    b.out.FullSpace();
    Spaces.AfterJoined(space, b.lsSlot, cs, 0, k + 1, |cs|, g);
    if b.out.invalid {
      Spaces.AfterFull(b.lsSlot, cs, k + 1, |cs|, g);
      return;
    }
    RecordRest(b, cs, k, ms, order, want, g, before, pos);
  }

  lemma ChosenSize(ls: nat, s: Stmt, g: Structured.Ctx, order: seq<nat>, want: seq<bool>)
    requires Chosen(ls, s, g, order, want)
    ensures |want| == |Flags(s)| && InRange(Kept(ls, s, g, IDLE, 0, 0), order)
  {
  }

  /** The commands behind the one that is going to be patched. */
  method RecordRest(b: Builder, cs: seq<Command>, k: nat, ms: seq<MaybeBlock>, order: seq<nat>, ghost want: seq<bool>,
                    ghost g: Structured.Ctx, ghost before: seq<Instr>, ghost pos: nat)
    requires k < |cs| && b.out.nrRegisters >= Chunks.LINK && TakesAll(b, cs, g) && !b.out.invalid
    requires Recorded(b, cs[..k + 1], g, before) && |want| == |Flags(StmtOf(cs[k]))|
    requires Linking.Closed(before) && forall a :: a in b.out.buffers ==> (a.Length + Chunks.LINK) * 8 < W32
    requires var hs := Kept(b.lsSlot, StmtOf(cs[k]), CtxAfter(b.lsSlot, cs[..k], g), IDLE, 0, 0);
             Driver.Adds(ms, [], hs) && Chosen(b.lsSlot, StmtOf(cs[k]), CtxAfter(b.lsSlot, cs[..k], g), order, want)
    requires pos == |before| + |Gen(b.lsSlot, All(cs[..k]), g, IDLE).code| && Located(ms, b.out, pos)
    requires InOneChunk(b.out.parts, pos, |Gen(b.lsSlot, StmtOf(cs[k]), CtxAfter(b.lsSlot, cs[..k], g), IDLE).code|)
    modifies b, b.cur, b.pending, b.pending.block, b.pending.endLabel, b.pending.lsState, b.FlushFrame()
    ensures b.out.invalid <==>
            Spaces.AfterAll(old(b.out.SpaceLeft()), b.lsSlot, cs, k + 1, |cs|, g).Full?
    ensures !b.out.invalid ==> Finished(b, before, All(Patched(cs, k, want)))
  {
    hide Gen, Kept, Sound, Chunks.CommandStream.Valid, Chunks.Flatten, Chunks.Extends, TakesAll, All, CtxAfter,
         WellFormed, Preservation.Finish, Finished, Linking.Closed, Tidy.UsesBelow, InOneChunk, Chosen, Flags, With,
         Formed, Chunks.CommandStream.SpaceLeft;
    ghost var mid, mems := b.out.parts, b.out.mems;
    TakesFormed(b, cs, g);
    EmitFrom(b, cs, k + 1, |cs|, g, before);
    b.out.FullSpace();
    if b.out.invalid { return; }
    assert cs[..|cs|] == cs;
    LocatedStill(ms, b.out, pos, mid, mems);
    StaysInOneChunk(b.out.parts, mid, pos, |Gen(b.lsSlot, StmtOf(cs[k]), CtxAfter(b.lsSlot, cs[..k], g), IDLE).code|);
    PatchAndClose(b, cs, k, ms, order, want, g, before);
  }

  method PatchAndClose(b: Builder, cs: seq<Command>, k: nat, ms: seq<MaybeBlock>, order: seq<nat>,
                       ghost want: seq<bool>, ghost g: Structured.Ctx, ghost before: seq<Instr>)
    requires k < |cs| && b.out.nrRegisters >= Chunks.LINK && Formed(cs) && !b.out.invalid && Recorded(b, cs, g, before)
    requires forall j :: 0 <= j < |cs| ==> Tidy.UsesBelow(StmtOf(cs[j]), Chunks.LenReg(b.out.nrRegisters))
    requires Linking.Closed(before) && forall a :: a in b.out.buffers ==> (a.Length + Chunks.LINK) * 8 < W32
    requires var hs := Kept(b.lsSlot, StmtOf(cs[k]), CtxAfter(b.lsSlot, cs[..k], g), IDLE, 0, 0);
             Driver.Adds(ms, [], hs) && Chosen(b.lsSlot, StmtOf(cs[k]), CtxAfter(b.lsSlot, cs[..k], g), order, want)
    requires var pos := |before| + |Gen(b.lsSlot, All(cs[..k]), g, IDLE).code|;
             && Located(ms, b.out, pos)
             && InOneChunk(b.out.parts, pos, |Gen(b.lsSlot, StmtOf(cs[k]), CtxAfter(b.lsSlot, cs[..k], g), IDLE).code|)
    requires |want| == |Flags(StmtOf(cs[k]))|
    modifies b`instrs, b`stack, b.out, b.out.buffers
    ensures !b.out.invalid && Finished(b, before, All(Patched(cs, k, want)))
  {
    hide Gen, Kept, Sound, Chunks.CommandStream.Valid, Chunks.Flatten, Chunks.Extends, All, CtxAfter, WellFormed,
         Preservation.Finish, Finished, Linking.Closed, Linking.AllBelow, Tidy.UsesBelow, InOneChunk, Flags, With,
         Located, Meets, Patching.Full;
    ghost var after := AllPatched(b.lsSlot, cs, k, want, g);
    ghost var front := before + Preservation.Finish(Gen(b.lsSlot, All(cs[..k]), g, IDLE).code);
    PatchLate(b, ms, order, StmtOf(cs[k]), want, CtxAfter(b.lsSlot, cs[..k], g), front, after);
    PatchedBelow(cs, k, want, Chunks.LenReg(b.out.nrRegisters));
    AllFormed(Patched(cs, k, want));
    AllBelow(Patched(cs, k, want), Chunks.LenReg(b.out.nrRegisters));
    Tidy.FinishedTidy(b.lsSlot, All(Patched(cs, k, want)), g, IDLE, Chunks.LenReg(b.out.nrRegisters));
    Close(b, before, All(Patched(cs, k, want)), g);
  }

  lemma LocatedStill(ms: seq<MaybeBlock>, out: Chunks.CommandStream, pos: nat, was: seq<Chunks.Part>,
                     mems: seq<array<Instr>>)
    requires forall i :: 0 <= i < |ms| && ms[i].instrs != [] ==> ms[i].In(was, mems, pos + ms[i].patchPos)
    requires Chunks.Extends(out.parts, was) && mems <= out.mems && out.Valid()
    ensures Located(ms, out, pos)
  {
    hide Chunks.Extends;
    forall i | 0 <= i < |ms| && ms[i].instrs != [] ensures ms[i].At(out, pos + ms[i].patchPos) {
      ms[i].InKept(was, mems, out.parts, out.mems, pos + ms[i].patchPos);
    }
  }

  lemma PatchedBelow(cs: seq<Command>, k: nat, want: seq<bool>, top: Reg)
    requires k < |cs| && forall j :: 0 <= j < |cs| ==> Tidy.UsesBelow(StmtOf(cs[j]), top)
    requires |want| == |Flags(StmtOf(cs[k]))|
    ensures forall j :: 0 <= j < |cs| ==> Tidy.UsesBelow(StmtOf(Patched(cs, k, want)[j]), top)
  {
    WithBelow(StmtOf(cs[k]), want, top);
  }

  // ----- Around the end of a block ------------------------------------------------------------------------

  /** A maybe block of the block under construction can be patched: it holds no LOAD_IP, whose address is only
      known once the block is in its place. */
  ghost predicate Patchable(b: Builder, block: Block, m: MaybeBlock)
    reads b, b.pending, b.pending.block, b.pending.endLabel, b.out, b.out.mems, block, m
  {
    && b.Valid() && !b.Active() && b.stack == block && block.next == null && block != b.pending.block && b.Copyable()
    && m in b.pendingMaybes && m.patchAddr.NoPatch? && m.instrs != [] && m.patchPos + |m.instrs| <= |b.instrs|
    && forall k :: 0 <= k < |b.ips| ==> !(m.patchPos < b.ips[k] <= m.patchPos + |m.instrs|)
  }

  /** The block is closed, and the maybe block patched in its chunk. */
  method CloseThenPatch(b: Builder, block: Block, m: MaybeBlock)
    requires Patchable(b, block, m)
    modifies b, b.FlushFrame()
    ensures b.out.SpaceLeft() == Chunks.Behind(old(b.out.SpaceLeft()), |old(b.instrs)|, |old(b.instrs)| in old(b.ips))
    ensures !b.out.invalid ==> b.out.Valid() && b.CopiedTo(Chunks.Overwrite(old(b.instrs), m.patchPos, m.instrs),
                                                           old(b.ips), old(b.out.Stream()))
  {
    hide Chunks.CommandStream.Valid, Chunks.Flatten, Chunks.Extends, Chunks.Overwrite, WithIps, Chunks.StreamPos,
         IpChained, Labels.Patch, Chunks.Behind, Chunks.CommandStream.SpaceLeft;
    ghost var whole, ips, before := b.instrs, b.ips, b.out.Stream();
    Labels.PatchNothing(whole, |whole|);
    b.BlockEnd(block);
    if !b.out.invalid {
      ghost var last := b.out.parts[|b.out.parts| - 1];
      Maybes.EarlyOrLate(before, whole, ips, m.patchPos, m.instrs, last.gpu, last.size - |whole|);
      ghost var was := b.out.parts;
      BuffersHeld(b.out);
      Constructs.PatchMaybe(b, m, |before| + m.patchPos);
      SameGpu(b.out.parts, was);
    }
  }

  lemma SameGpu(now: seq<Chunks.Part>, was: seq<Chunks.Part>)
    requires Chunks.Extends(now, was) && |now| == |was|
    ensures Chunks.Sized(now) && forall k :: 0 <= k < |now| ==> now[k].gpu == was[k].gpu
  {
  }

  /** Patched first and closed then: the stream is the same. */
  method PatchThenClose(b: Builder, block: Block, m: MaybeBlock)
    requires Patchable(b, block, m)
    modifies b, b.FlushFrame()
    ensures b.out.SpaceLeft() == Chunks.Behind(old(b.out.SpaceLeft()), |old(b.instrs)|, |old(b.instrs)| in old(b.ips))
    ensures !b.out.invalid ==> b.out.Valid() && b.CopiedTo(Chunks.Overwrite(old(b.instrs), m.patchPos, m.instrs),
                                                           old(b.ips), old(b.out.Stream()))
  {
    hide Chunks.CommandStream.Valid, Chunks.Flatten, Chunks.Extends, WithIps, Labels.Patch, Chunks.Overwrite, IpChained;
    ghost var whole := b.instrs;
    Labels.PatchNothing(whole, |whole|);
    IpsKept(whole, b.ips, b.lastLoadIpTarget, m.patchPos, m.instrs);
    Constructs.PatchMaybe(b, m, 0);
    Labels.PatchNothing(b.instrs, |b.instrs|);
    b.BlockEnd(block);
  }

  lemma IpsKept(instrs: seq<Instr>, ips: seq<nat>, last: nat, pos: nat, body: seq<Instr>)
    requires pos + |body| <= |instrs| && forall k :: 0 <= k < |ips| ==> !(pos < ips[k] <= pos + |body|)
    ensures IpChained(instrs, ips, last) ==> IpChained(Chunks.Overwrite(instrs, pos, body), ips, last)
  {
  }
}
