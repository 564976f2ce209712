/** Running linked chunks is running the flat stream they hold. */
module Linking {
  import opened Isa
  import opened Chunks

  // ----- The machine on chunks -----------------------------------------------------------------------

  /** Executing instruction `idx` of the first `size` instructions of chunk `k`; off the chunks when a jump
      goes to an address where no chunk starts. */
  datatype State = In(k: nat, size: nat, idx: int, core: Core) | Lost

  /** The chunk at a GPU address, or `|parts|`. */
  function Find(parts: seq<Part>, gpu: nat): (k: nat)
    ensures k <= |parts| && (k < |parts| ==> parts[k].gpu == gpu)
    ensures forall j :: 0 <= j < k ==> parts[j].gpu != gpu
  {
    if parts == [] then 0 else if parts[0].gpu == gpu then 0 else 1 + Find(parts[1..], gpu)
  }

  predicate Halted(s: State) {
    s.In? && !(0 <= s.idx < s.size)
  }

  function ChunkStep(parts: seq<Part>, s: State): State {
    if s.Lost? || Halted(s) then s
    else if s.k >= |parts| || s.idx >= |parts[s.k].words| then Lost
    else
      match parts[s.k].words[s.idx]
      case Branch(rel, cond, v) =>
        s.(idx := if Holds(cond, Signed32(Get(s.core.regs, v))) then s.idx + 1 + rel else s.idx + 1)
      case Jump(length, address) =>
        var k := Find(parts, Get64(s.core.regs, address));
        if k < |parts| then In(k, Get(s.core.regs, length) / 8, 0, s.core) else Lost
      case i => s.(idx := s.idx + 1, core := ExecOp(i, s.core))
  }

  function ChunkSteps(parts: seq<Part>, s: State, n: nat): State
    decreases n
  {
    if n == 0 then s else ChunkSteps(parts, ChunkStep(parts, s), n - 1)
  }

  lemma {:induction false} ChunkStepsAdd(parts: seq<Part>, s: State, m: nat, n: nat)
    ensures ChunkSteps(parts, s, m + n) == ChunkSteps(parts, ChunkSteps(parts, s, m), n)
    decreases m
  {
    if m > 0 { ChunkStepsAdd(parts, ChunkStep(parts, s), m - 1, n); }
  }

  // ----- What a program can see ------------------------------------------------------------------------

  /** The registers below the builder's own. */
  function Strip(regs: map<Reg, Word>, top: Reg): map<Reg, Word> {
    map r | r in regs && r < top :: regs[r]
  }

  function StripLog(log: seq<Event>, top: Reg): seq<Event> {
    if log == [] then []
    else
      var e := log[|log| - 1];
      StripLog(log[..|log| - 1], top) + [e.(regs := Strip(e.regs, top))]
  }

  function Visible(c: Core, top: Reg): Core {
    Core(Strip(c.regs, top), c.mem, StripLog(c.log, top))
  }

  /** An instruction of the client's: a plain one or a branch, on registers below `top`. */
  predicate Below(i: Instr, top: Reg) {
    !i.Jump? && forall k, r :: 0 <= k < |Operands(i)| && r in Operands(i)[k] ==> r < top
  }

  lemma StripGet(regs: map<Reg, Word>, top: Reg, r: Reg)
    requires r < top
    ensures Get(Strip(regs, top), r) == Get(regs, r)
  {
  }

  lemma StripPut(regs: map<Reg, Word>, top: Reg, r: Reg, v: Word)
    ensures Strip(regs[r := v], top) == if r < top then Strip(regs, top)[r := v] else Strip(regs, top)
  {
  }

  lemma StripPut64(regs: map<Reg, Word>, top: Reg, r: Reg, v: nat)
    ensures r + 1 < top ==> Strip(Put64(regs, r, v), top) == Put64(Strip(regs, top), r, v)
    ensures top <= r ==> Strip(Put64(regs, r, v), top) == Strip(regs, top)
  {
    StripPut(regs, top, r, v % W32);
    StripPut(regs[r := v % W32], top, r + 1, (v / W32) % W32);
  }

  lemma {:induction false} StripLoadRow(regs: map<Reg, Word>, mem: map<nat, Word>, base: Reg, mask: seq<bool>, a: nat,
                                        top: Reg)
    requires forall i :: 0 <= i < |mask| && mask[i] ==> base + i < top
    ensures Strip(LoadRow(regs, mem, base, mask, a), top) == LoadRow(Strip(regs, top), mem, base, mask, a)
    decreases |mask|
  {
    if mask != [] {
      StripPut(regs, top, base, Cell(mem, a));
      assert forall i :: 0 <= i < |mask| - 1 && mask[1..][i] ==> mask[i + 1] && base + (i + 1) < top;
      StripLoadRow(if mask[0] then regs[base := Cell(mem, a)] else regs, mem, base + 1, mask[1..],
                   if mask[0] then a + 4 else a, top);
    }
  }

  lemma {:induction false} StripStoreRow(mem: map<nat, Word>, regs: map<Reg, Word>, base: Reg, mask: seq<bool>, a: nat,
                                         top: Reg)
    requires forall i :: 0 <= i < |mask| && mask[i] ==> base + i < top
    ensures StoreRow(mem, Strip(regs, top), base, mask, a) == StoreRow(mem, regs, base, mask, a)
    decreases |mask|
  {
    if mask != [] {
      if mask[0] { StripGet(regs, top, base); }
      assert forall i :: 0 <= i < |mask| - 1 && mask[1..][i] ==> mask[i + 1] && base + (i + 1) < top;
      StripStoreRow(if mask[0] then mem[a := Get(regs, base)] else mem, regs, base + 1, mask[1..],
                    if mask[0] then a + 4 else a, top);
    }
  }

  lemma BelowPair(i: Instr, top: Reg, k: nat, r: Reg, regs: map<Reg, Word>)
    requires Below(i, top) && k < |Operands(i)| && Operands(i)[k] == Pair(r)
    ensures r + 1 < top && Get64(Strip(regs, top), r) == Get64(regs, r)
  {
    assert r + 1 in Operands(i)[k] && r in Operands(i)[k];
  }

  lemma BelowOne(i: Instr, top: Reg, k: nat, r: Reg)
    requires Below(i, top) && k < |Operands(i)| && r in Operands(i)[k]
    ensures r < top
  {
  }

  lemma BelowRow(i: Instr, top: Reg, base: Reg, mask: seq<bool>)
    requires Below(i, top) && 0 < |Operands(i)| && Operands(i)[0] == Row(base, mask)
    ensures forall j :: 0 <= j < |mask| && mask[j] ==> base + j < top
  {
    forall j | 0 <= j < |mask| && mask[j] ensures base + j < top { assert base + j in Operands(i)[0]; }
  }

  /** The builder's registers have no influence on what a client's instruction does to the others. */
  lemma VisibleOp(i: Instr, c: Core, top: Reg)
    requires Below(i, top) && !i.Branch?
    ensures Visible(ExecOp(i, c), top) == ExecOp(i, Visible(c, top))
  {
    hide ExecOp, Visible, Operands;
    match i
    case Move32(_, _) => VisibleNarrow(i, c, top);
    case MoveReg32(_, _) => VisibleNarrow(i, c, top);
    case AddImm32(_, _, _) => VisibleNarrow(i, c, top);
    case RshiftImmU32(_, _, _) => VisibleNarrow(i, c, top);
    case Move48(_, _) => VisibleWide(i, c, top);
    case AddImm64(_, _, _) => VisibleWide(i, c, top);
    case Add64(_, _, _) => VisibleWide(i, c, top);
    case LshiftImm64(_, _, _) => VisibleWide(i, c, top);
    case _ => VisibleOther(i, c, top);
  }

  lemma VisibleNarrow(i: Instr, c: Core, top: Reg)
    requires Below(i, top) && (i.Move32? || i.MoveReg32? || i.AddImm32? || i.RshiftImmU32?)
    ensures Visible(ExecOp(i, c), top) == ExecOp(i, Visible(c, top))
  {
    hide Below, Strip, StripLog;
    BelowOne(i, top, 0, i.dst);
    if !i.Move32? {
      BelowOne(i, top, 1, i.src);
      StripGet(c.regs, top, i.src);
    }
    StripPut(c.regs, top, i.dst, ExecOp(i, c).regs[i.dst]);
  }

  lemma VisibleWide(i: Instr, c: Core, top: Reg)
    requires Below(i, top) && (i.Move48? || i.AddImm64? || i.Add64? || i.LshiftImm64?)
    ensures Visible(ExecOp(i, c), top) == ExecOp(i, Visible(c, top))
  {
    hide Below, Strip, StripLog, Put64, Get64;
    BelowPair(i, top, 0, i.dst, c.regs);
    match i
    case Move48(d, imm) => StripPut64(c.regs, top, d, imm);
    case AddImm64(d, s, imm) =>
      BelowPair(i, top, 1, s, c.regs);
      StripPut64(c.regs, top, d, (Get64(c.regs, s) + imm) % W64);
    case Add64(d, s0, s1) =>
      BelowPair(i, top, 1, s0, c.regs);
      BelowPair(i, top, 2, s1, c.regs);
      StripPut64(c.regs, top, d, (Get64(c.regs, s0) + Get64(c.regs, s1)) % W64);
    case LshiftImm64(d, s, k) =>
      BelowPair(i, top, 1, s, c.regs);
      StripPut64(c.regs, top, d, (Get64(c.regs, s) * Pow2(k)) % W64);
  }

  lemma VisibleOther(i: Instr, c: Core, top: Reg)
    requires Below(i, top) && (i.Nop? || i.Load? || i.Store? || i.Run? || i.Wait?)
    ensures Visible(ExecOp(i, c), top) == ExecOp(i, Visible(c, top))
  {
    hide Below, Strip, Get64, LoadRow, StoreRow;
    match i
    case Load(_, _, _, _) => VisibleRow(i, c, top);
    case Store(_, _, _, _) => VisibleRow(i, c, top);
    case Run(j) => LogStripped(c.log, Event(j, c.regs, c.mem), top);
    case _ =>
  }

  lemma LogStripped(log: seq<Event>, e: Event, top: Reg)
    ensures StripLog(log + [e], top) == StripLog(log, top) + [e.(regs := Strip(e.regs, top))]
  {
    hide Strip;
    assert (log + [e])[..|log|] == log;
  }

  lemma VisibleRow(i: Instr, c: Core, top: Reg)
    requires Below(i, top) && (i.Load? || i.Store?)
    ensures Visible(ExecOp(i, c), top) == ExecOp(i, Visible(c, top))
  {
    hide Below, Strip, StripLog, Get64, LoadRow, StoreRow;
    BelowRow(i, top, i.base, i.mask);
    BelowPair(i, top, 1, i.addr, c.regs);
    var a := Isa.Address(c.regs, i.addr, i.offset);
    if i.Load? {
      StripLoadRow(c.regs, c.mem, i.base, i.mask, a, top);
    } else {
      StripStoreRow(c.mem, c.regs, i.base, i.mask, a, top);
    }
  }

  // ----- Finished streams -------------------------------------------------------------------------------

  /** Every branch stays within the code it is part of, or goes just behind it. */
  ghost predicate Closed(code: seq<Instr>) {
    forall i :: 0 <= i < |code| && code[i].Branch? ==> 0 <= i + 1 + code[i].rel <= |code|
  }

  ghost predicate AllBelow(code: seq<Instr>, top: Reg) {
    forall i :: 0 <= i < |code| ==> Below(code[i], top)
  }

  /** A stream that has been ended: linked chunks at distinct, addressable places, each holding whole blocks
      of client code. */
  ghost predicate Ready(nr: nat, parts: seq<Part>) {
    && parts != [] && Linked(nr, parts, true)
    && (forall i, j :: 0 <= i < j < |parts| ==> parts[i].gpu != parts[j].gpu)
    && (forall k :: 0 <= k < |parts| ==> ReadyPart(nr, parts[k]))
  }

  ghost predicate ReadyPart(nr: nat, p: Part)
    requires nr >= LINK && p.size <= |p.words|
  {
    && p.gpu < 0x1_0000_0000_0000 && (p.size + LINK) * 8 < W32
    && Closed(Code(p)) && AllBelow(Code(p), LenReg(nr))
  }

  /** Instructions of chunk `k`, with the link. */
  function Size(parts: seq<Part>, k: nat): nat
    requires k < |parts|
  {
    parts[k].size + if k < |parts| - 1 then LINK else 0
  }

  /** The chunk machine is where the flat machine is, and computes with the same visible state. */
  ghost predicate Same(nr: nat, parts: seq<Part>, s: State, d: Config)
    requires nr >= LINK && Sized(parts)
  {
    && s.In? && s.k < |parts| && s.size == Size(parts, s.k) && 0 <= s.idx <= parts[s.k].size
    && d.pc == StreamPos(parts, s.k, s.idx)
    && Visible(s.core, LenReg(nr)) == Visible(d.core, LenReg(nr))
  }

  lemma {:induction false} PosInStream(parts: seq<Part>, k: nat)
    requires Sized(parts) && k < |parts|
    ensures StreamPos(parts, k, parts[k].size) <= |Flatten(parts)|
    ensures Flatten(parts)[StreamPos(parts, k, 0)..StreamPos(parts, k, parts[k].size)] == Code(parts[k])
    ensures k == |parts| - 1 ==> StreamPos(parts, k, parts[k].size) == |Flatten(parts)|
    ensures k < |parts| - 1 ==> StreamPos(parts, k + 1, 0) == StreamPos(parts, k, parts[k].size)
    decreases |parts|
  {
    var n := |parts| - 1;
    if k < n {
      PosInStream(parts[..n], k);
      assert parts[..n][..k] == parts[..k];
      assert parts[..k + 1][..k] == parts[..k];
    }
  }

  lemma CodeAt(parts: seq<Part>, k: nat, i: nat)
    requires Sized(parts) && k < |parts| && i < parts[k].size
    ensures StreamPos(parts, k, i) < |Flatten(parts)|
    ensures Flatten(parts)[StreamPos(parts, k, i)] == parts[k].words[i]
  {
    PosInStream(parts, k);
    assert Code(parts[k])[i] == parts[k].words[i];
    var p, at := Flatten(parts), StreamPos(parts, k, 0);
    assert p[at..at + parts[k].size][i] == p[at + i];
  }

  lemma {:induction false} FindChunk(parts: seq<Part>, k: nat)
    requires k < |parts| && forall i, j :: 0 <= i < j < |parts| ==> parts[i].gpu != parts[j].gpu
    ensures Find(parts, parts[k].gpu) == k
  {
    var j := Find(parts, parts[k].gpu);
    assert j <= k;
  }

  /** Moving an address and a length into the builder's registers is invisible. */
  lemma LinkRegs(nr: nat, c: Core, gpu: nat, length: Word)
    requires nr >= LINK && gpu < 0x1_0000_0000_0000
    ensures var c1 := ExecOp(Move48(AddrReg(nr), gpu), c);
            var c2 := ExecOp(Move32(LenReg(nr), length), c1);
            && Get64(c2.regs, AddrReg(nr)) == gpu && Get(c2.regs, LenReg(nr)) == length
            && Visible(c2, LenReg(nr)) == Visible(c, LenReg(nr))
  {
    StripPut64(c.regs, LenReg(nr), AddrReg(nr), gpu);
    StripPut(Put64(c.regs, AddrReg(nr), gpu), LenReg(nr), LenReg(nr), length);
  }

  /** A link changes nothing but the last three registers. */
  lemma LinkKeeps(nr: nat, c: Core, gpu: nat, length: Word)
    requires nr >= LINK && gpu < 0x1_0000_0000_0000
    ensures var e := ExecOp(Move32(LenReg(nr), length), ExecOp(Move48(AddrReg(nr), gpu), c));
            && e.mem == c.mem && e.log == c.log
            && forall r: Reg :: r + 3 < nr || nr <= r ==> Get(e.regs, r) == Get(c.regs, r)
  {
  }

  /** Executing a link sequence. */
  lemma RunLink(nr: nat, parts: seq<Part>, s: State, gpu: nat, length: Word)
    requires nr >= LINK && s.In? && s.k < |parts| && 0 <= s.idx && s.idx + LINK == s.size
    requires gpu < 0x1_0000_0000_0000 && IsLink(nr, parts[s.k].words, s.idx, gpu, length)
    ensures var c := ExecOp(Move32(LenReg(nr), length), ExecOp(Move48(AddrReg(nr), gpu), s.core));
            var k := Find(parts, gpu);
            && (ChunkSteps(parts, s, 3) == if k < |parts| then In(k, length / 8, 0, c) else Lost)
            && c.mem == s.core.mem && c.log == s.core.log
            && forall r: Reg :: r + 3 < nr || nr <= r ==> Get(c.regs, r) == Get(s.core.regs, r)
  {
    hide Get64, Put64, Visible, ExecOp, Find, ChunkStep, ChunkSteps, AddrReg, LenReg;
    LinkRegs(nr, s.core, gpu, length);
    LinkKeeps(nr, s.core, gpu, length);
    ThreeSteps(parts, s);
    var s1 := s.(idx := s.idx + 1, core := ExecOp(Move48(AddrReg(nr), gpu), s.core));
    var s2 := s1.(idx := s.idx + 2, core := ExecOp(Move32(LenReg(nr), length), s1.core));
    StepPlain(parts, s, Move48(AddrReg(nr), gpu));
    StepPlain(parts, s1, Move32(LenReg(nr), length));
    StepJump(parts, s2, LenReg(nr), AddrReg(nr));
  }

  lemma StepPlain(parts: seq<Part>, s: State, i: Instr)
    requires s.In? && s.k < |parts| && 0 <= s.idx < s.size && s.idx < |parts[s.k].words|
    requires parts[s.k].words[s.idx] == i && !i.Branch? && !i.Jump?
    ensures ChunkStep(parts, s) == s.(idx := s.idx + 1, core := ExecOp(i, s.core))
  {
    hide ExecOp;
  }

  lemma StepJump(parts: seq<Part>, s: State, length: Reg, address: Reg)
    requires s.In? && s.k < |parts| && 0 <= s.idx < s.size && s.idx < |parts[s.k].words|
    requires parts[s.k].words[s.idx] == Jump(length, address)
    ensures var k := Find(parts, Get64(s.core.regs, address));
            ChunkStep(parts, s) == if k < |parts| then In(k, Get(s.core.regs, length) / 8, 0, s.core) else Lost
  {
    hide Find, Get64;
  }

  lemma ThreeSteps(parts: seq<Part>, s: State)
    ensures ChunkSteps(parts, s, 3) == ChunkStep(parts, ChunkStep(parts, ChunkStep(parts, s)))
  {
    hide ChunkStep;
    var s1 := ChunkStep(parts, s);
    var s2 := ChunkStep(parts, s1);
    assert ChunkSteps(parts, s1, 2) == ChunkSteps(parts, s2, 1) == ChunkSteps(parts, ChunkStep(parts, s2), 0);
  }

  /** The link sequence leads to the next chunk, with its length, and changes nothing a program sees. */
  lemma FollowLink(nr: nat, parts: seq<Part>, s: State, d: Config)
    requires Ready(nr, parts) && Same(nr, parts, s, d) && s.idx == parts[s.k].size && s.k < |parts| - 1
    ensures Same(nr, parts, ChunkSteps(parts, s, 3), d)
    ensures ChunkSteps(parts, s, 3).k == s.k + 1 && ChunkSteps(parts, s, 3).idx == 0
  {
    hide Visible, Get64, Put64, Linked, Flatten, Ready, ChunkSteps, ExecOp;
    ReadyLinked(nr, parts);
    var k := s.k;
    LinkIs(nr, parts, k);
    assert ReadyPart(nr, parts[k + 1]);
    var length := LengthOf(parts, k + 1, true);
    assert length == Size(parts, k + 1) * 8;
    LinkRegs(nr, s.core, parts[k + 1].gpu, length);
    FindChunk(parts, k + 1);
    PosInStream(parts, k);
    RunLink(nr, parts, s, parts[k + 1].gpu, length);
  }

  lemma LinkIs(nr: nat, parts: seq<Part>, k: nat)
    requires Linked(nr, parts, true) && k < |parts| - 1
    ensures IsLink(nr, parts[k].words, parts[k].size, parts[k + 1].gpu, LengthOf(parts, k + 1, true))
  {
    assert LinkedAt(nr, parts, true, k);
  }

  /** Follow links until there is an instruction to execute. */
  lemma {:induction false} Arrive(nr: nat, parts: seq<Part>, s: State, d: Config) returns (m: nat)
    requires Ready(nr, parts) && Same(nr, parts, s, d)
    ensures Same(nr, parts, ChunkSteps(parts, s, m), d)
    ensures var t := ChunkSteps(parts, s, m);
            t.idx < parts[t.k].size || t.k == |parts| - 1
    decreases |parts| - s.k
  {
    hide Ready, Visible;
    m := 0;
    if s.idx == parts[s.k].size && s.k < |parts| - 1 {
      FollowLink(nr, parts, s, d);
      var t := ChunkSteps(parts, s, 3);
      m := Arrive(nr, parts, t, d);
      ChunkStepsAdd(parts, s, 3, m);
      m := 3 + m;
    }
  }

  /** At an instruction of the stream both machines take the same step. */
  lemma StepTogether(nr: nat, parts: seq<Part>, s: State, d: Config)
    requires Ready(nr, parts) && Same(nr, parts, s, d) && s.idx < parts[s.k].size
    ensures Same(nr, parts, ChunkStep(parts, s), Step(Flatten(parts), d))
  {
    hide Visible, Linked, Flatten, ExecOp, Below, Ready;
    ReadyLinked(nr, parts);
    var k, top := s.k, LenReg(nr);
    CodeAt(parts, k, s.idx);
    assert ReadyPart(nr, parts[k]);
    var i := parts[k].words[s.idx];
    assert Code(parts[k])[s.idx] == i;
    assert Below(i, top);
    NoJump(i, top);
    if i.Branch? {
      TestVisible(i, s.core, d.core, top);
    } else {
      VisibleOp(i, s.core, top);
      VisibleOp(i, d.core, top);
    }
  }

  lemma NoJump(i: Instr, top: Reg)
    requires Below(i, top)
    ensures !i.Jump?
  {
  }

  lemma TestVisible(i: Instr, c: Core, d: Core, top: Reg)
    requires i.Branch? && Below(i, top) && Visible(c, top) == Visible(d, top)
    ensures Holds(i.cond, Signed32(Get(c.regs, i.val))) == Holds(i.cond, Signed32(Get(d.regs, i.val)))
  {
    if i.cond != Always {
      BelowOne(i, top, 0, i.val);
      StripGet(c.regs, top, i.val);
      StripGet(d.regs, top, i.val);
    }
  }

  /** However far the flat machine runs, the chunk machine gets to the same place; while the flat machine
      is not at the end, it takes at least as many steps. */
  lemma {:induction false} RunTogether(nr: nat, parts: seq<Part>, s: State, d: Config, n: nat) returns (m: nat)
    requires Ready(nr, parts) && Same(nr, parts, s, d)
    ensures Same(nr, parts, ChunkSteps(parts, s, m), Steps(Flatten(parts), d, n))
    ensures Steps(Flatten(parts), d, n).pc < |Flatten(parts)| ==> m >= n
    decreases n
  {
    hide Ready, Visible, Step, ChunkStep, Flatten, Linked;
    ReadyLinked(nr, parts);
    var p := Flatten(parts);
    m := 0;
    if n > 0 {
      m := Arrive(nr, parts, s, d);
      var t := ChunkSteps(parts, s, m);
      if t.idx < parts[t.k].size {
        StepTogether(nr, parts, t, d);
        var r := RunTogether(nr, parts, ChunkStep(parts, t), Step(p, d), n - 1);
        ChunkStepsAdd(parts, s, m, 1 + r);
        m := m + (1 + r);
      } else {
        PosInStream(parts, t.k);
        RestFlat(p, d, n);
      }
    }
  }

  lemma {:induction false} RestFlat(p: seq<Instr>, d: Config, n: nat)
    requires d.pc == |p|
    ensures Steps(p, d, n) == d
    decreases n
  {
    if n > 0 { RestFlat(p, d, n - 1); }
  }

  lemma {:induction false} RestHalted(parts: seq<Part>, s: State, n: nat)
    requires Halted(s)
    ensures ChunkSteps(parts, s, n) == s
    decreases n
  {
    if n > 0 { RestHalted(parts, s, n - 1); }
  }

  /** Execution of a finished stream starts with the root chunk, of which the client knows address and size. */
  function Boot(parts: seq<Part>, c: Core): State
    requires parts != []
  {
    In(0, Size(parts, 0), 0, c)
  }

  lemma BootSame(nr: nat, parts: seq<Part>, c: Core)
    requires Ready(nr, parts)
    ensures Same(nr, parts, Boot(parts, c), Config(0, c))
  {
    assert parts[..0] == [];
  }

  /** The chunk machine stops, with `d` as its visible state. */
  ghost predicate ChunksEnd(nr: nat, parts: seq<Part>, c: Core, d: Core)
    requires nr >= LINK && parts != []
  {
    exists m: nat :: Halted(ChunkSteps(parts, Boot(parts, c), m))
                     && Visible(ChunkSteps(parts, Boot(parts, c), m).core, LenReg(nr)) == d
  }

  /** The flat stream runs to its end, with `d` as the visible state. */
  ghost predicate FlatEnds(nr: nat, p: seq<Instr>, c: Core, d: Core)
    requires nr >= LINK
  {
    exists n: nat :: Steps(p, Config(0, c), n).pc == |p| && Visible(Steps(p, Config(0, c), n).core, LenReg(nr)) == d
  }

  lemma AtEnd(nr: nat, parts: seq<Part>, s: State, d: Config)
    requires Ready(nr, parts) && Same(nr, parts, s, d)
    ensures Halted(s) ==> d.pc == |Flatten(parts)|
    ensures d.pc == |Flatten(parts)| && (s.idx < parts[s.k].size || s.k == |parts| - 1) ==> Halted(s)
  {
    hide Visible;
    PosInStream(parts, s.k);
    if s.idx < parts[s.k].size { CodeAt(parts, s.k, s.idx); }
  }

  /** Linking is invisible: the linked chunks, run from the root chunk, stop in a visible state exactly when
      the stream they were built from, run as one flat sequence, does. */
  lemma ChunksRefineStream(nr: nat, parts: seq<Part>, c: Core, d: Core)
    requires Ready(nr, parts)
    ensures ChunksEnd(nr, parts, c, d) <==> FlatEnds(nr, Flatten(parts), c, d)
  {
    hide Ready, Visible, Step, ChunkStep, Flatten, Linked;
    ReadyLinked(nr, parts);
    var p, s, f := Flatten(parts), Boot(parts, c), Config(0, c);
    BootSame(nr, parts, c);
    if FlatEnds(nr, p, c, d) {
      var n: nat :| Steps(p, f, n).pc == |p| && Visible(Steps(p, f, n).core, LenReg(nr)) == d;
      var m := RunTogether(nr, parts, s, f, n);
      var r := Arrive(nr, parts, ChunkSteps(parts, s, m), Steps(p, f, n));
      ChunkStepsAdd(parts, s, m, r);
      AtEnd(nr, parts, ChunkSteps(parts, s, m + r), Steps(p, f, n));
    }
    if ChunksEnd(nr, parts, c, d) {
      var m: nat :| Halted(ChunkSteps(parts, s, m)) && Visible(ChunkSteps(parts, s, m).core, LenReg(nr)) == d;
      var n := RunTogether(nr, parts, s, f, m + 1);
      var t := ChunkSteps(parts, s, n);
      var e := Steps(p, f, m + 1);
      var r := Arrive(nr, parts, t, e);
      ChunkStepsAdd(parts, s, n, r);
      if m <= n {
        ChunkStepsAdd(parts, s, m, n - m);
        RestHalted(parts, ChunkSteps(parts, s, m), n - m);
        AtEnd(nr, parts, t, e);
      } else {
        EndOnly(nr, parts, s, f, m, n);
        AtEnd(nr, parts, ChunkSteps(parts, s, n + r), e);
        if m <= n + r {
          ChunkStepsAdd(parts, s, m, n + r - m);
          RestHalted(parts, ChunkSteps(parts, s, m), n + r - m);
        } else {
          ChunkStepsAdd(parts, s, n + r, m - (n + r));
          RestHalted(parts, ChunkSteps(parts, s, n + r), m - (n + r));
        }
      }
    }
  }

  /** The flat machine only falls ahead of the chunk machine at its end. */
  lemma EndOnly(nr: nat, parts: seq<Part>, s: State, f: Config, m: nat, n: nat)
    requires Ready(nr, parts) && n < m
    requires Same(nr, parts, ChunkSteps(parts, s, n), Steps(Flatten(parts), f, m + 1))
    requires Steps(Flatten(parts), f, m + 1).pc < |Flatten(parts)| ==> n >= m + 1
    ensures Steps(Flatten(parts), f, m + 1).pc == |Flatten(parts)|
  {
    hide Ready, Visible;
    var t := ChunkSteps(parts, s, n);
    ReadyLinked(nr, parts);
    PosInStream(parts, t.k);
  }

  lemma ReadyLinked(nr: nat, parts: seq<Part>)
    requires Ready(nr, parts)
    ensures nr >= LINK && parts != [] && Sized(parts) && Linked(nr, parts, true)
    ensures forall k :: 0 <= k < |parts| ==> ReadyPart(nr, parts[k])
    ensures forall i, j :: 0 <= i < j < |parts| ==> parts[i].gpu != parts[j].gpu
  {
  }
}
