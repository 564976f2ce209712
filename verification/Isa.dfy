/**
 The machine the command stream runs on, as far as the builder depends on it: a file of 32-bit
 registers, a memory of 32-bit cells, a log of the jobs started, and the set of registers with a
 load still in flight.
 */
module Isa {

  const W32: nat := 0x1_0000_0000
  const W64: nat := 0x1_0000_0000_0000_0000

  type Word = x: int | 0 <= x < 0x1_0000_0000

  type Reg = nat

  datatype Cond = LEqual | Equal | Less | Greater | NEqual | GEqual | Always

  /** Instructions. 64-bit operands name the low register of a pair; `mask[i]` selects register `base + i`. */
  datatype Instr =
    | Nop
    | Move32(dst: Reg, imm32: Word)
    | Move48(dst: Reg, imm48: nat)
    | MoveReg32(dst: Reg, src: Reg)
    | AddImm32(dst: Reg, src: Reg, imm: int)
    | AddImm64(dst: Reg, src: Reg, imm: int)
    | Add64(dst: Reg, src0: Reg, src1: Reg)
    | LshiftImm64(dst: Reg, src: Reg, shift: nat)
    | RshiftImmU32(dst: Reg, src: Reg, shift: nat)
    | Load(base: Reg, addr: Reg, mask: seq<bool>, offset: int)
    | Store(base: Reg, addr: Reg, mask: seq<bool>, offset: int)
    | Run(job: nat)
    | Wait(slots: set<nat>)
    | Branch(rel: int, cond: Cond, val: Reg)
    | Jump(length: Reg, address: Reg)

  /** What happens in order: each job is logged with the registers and memory it starts from. */
  datatype Event = Event(job: nat, regs: map<Reg, Word>, mem: map<nat, Word>)

  /** The part of the machine that computes. Registers and cells never written read as 0. */
  datatype Core = Core(regs: map<Reg, Word>, mem: map<nat, Word>, log: seq<Event>)

  function Pow2(k: nat): (p: nat)
    ensures p > 0
  {
    if k == 0 then 1 else 2 * Pow2(k - 1)
  }

  function Get(regs: map<Reg, Word>, r: Reg): Word {
    if r in regs then regs[r] else 0
  }

  function Get64(regs: map<Reg, Word>, r: Reg): (v: nat)
    ensures v < W64
  {
    Get(regs, r) + W32 * Get(regs, r + 1)
  }

  function Put64(regs: map<Reg, Word>, r: Reg, v: nat): map<Reg, Word> {
    regs[r := v % W32][r + 1 := (v / W32) % W32]
  }

  function Cell(mem: map<nat, Word>, a: nat): Word {
    if a in mem then mem[a] else 0
  }

  function Signed32(w: Word): int {
    if w < 0x8000_0000 then w else w - 0x1_0000_0000
  }

  function Signed64(v: nat): int
    requires v < W64
  {
    if v < 0x8000_0000_0000_0000 then v else v - 0x1_0000_0000_0000_0000
  }

  /** A condition compares a signed value with zero. */
  predicate Holds(c: Cond, v: int) {
    match c
    case LEqual => v <= 0
    case Equal => v == 0
    case Less => v < 0
    case Greater => v > 0
    case NEqual => v != 0
    case GEqual => v >= 0
    case Always => true
  }

  /** LOAD_MULTIPLE fills the selected registers from consecutive cells. */
  function LoadRow(regs: map<Reg, Word>, mem: map<nat, Word>, base: Reg, mask: seq<bool>, a: nat): map<Reg, Word>
    decreases |mask|
  {
    if mask == [] then regs
    else if mask[0] then LoadRow(regs[base := Cell(mem, a)], mem, base + 1, mask[1..], a + 4)
    else LoadRow(regs, mem, base + 1, mask[1..], a)
  }

  /** STORE_MULTIPLE packs the selected registers into consecutive cells. */
  function StoreRow(mem: map<nat, Word>, regs: map<Reg, Word>, base: Reg, mask: seq<bool>, a: nat): map<nat, Word>
    decreases |mask|
  {
    if mask == [] then mem
    else if mask[0] then StoreRow(mem[a := Get(regs, base)], regs, base + 1, mask[1..], a + 4)
    else StoreRow(mem, regs, base + 1, mask[1..], a)
  }

  function Address(regs: map<Reg, Word>, addr: Reg, offset: int): nat {
    (Get64(regs, addr) + offset) % W64
  }

  /** What an instruction that is not a transfer of control does. */
  function ExecOp(i: Instr, c: Core): Core {
    match i
    case Move32(d, imm) => c.(regs := c.regs[d := imm])
    case Move48(d, imm) => c.(regs := Put64(c.regs, d, imm))
    case MoveReg32(d, s) => c.(regs := c.regs[d := Get(c.regs, s)])
    case AddImm32(d, s, imm) => c.(regs := c.regs[d := (Get(c.regs, s) + imm) % W32])
    case AddImm64(d, s, imm) => c.(regs := Put64(c.regs, d, (Get64(c.regs, s) + imm) % W64))
    case Add64(d, s0, s1) => c.(regs := Put64(c.regs, d, (Get64(c.regs, s0) + Get64(c.regs, s1)) % W64))
    case LshiftImm64(d, s, k) => c.(regs := Put64(c.regs, d, (Get64(c.regs, s) * Pow2(k)) % W64))
    case RshiftImmU32(d, s, k) => c.(regs := c.regs[d := (Get(c.regs, s) / Pow2(k)) % W32])
    case Load(b, a, m, off) => c.(regs := LoadRow(c.regs, c.mem, b, m, Address(c.regs, a, off)))
    case Store(b, a, m, off) => c.(mem := StoreRow(c.mem, c.regs, b, m, Address(c.regs, a, off)))
    case Run(j) => c.(log := c.log + [Event(j, c.regs, c.mem)])
    case _ => c
  }

  // ----- Hazards ---------------------------------------------------------------------------

  function Pair(r: Reg): set<Reg> { {r, r + 1} }

  function Row(base: Reg, mask: seq<bool>): set<Reg> {
    set i | 0 <= i < |mask| && mask[i] :: base + i
  }

  /** The operands an instruction names, in the order the builder resolves them. */
  function Operands(i: Instr): seq<set<Reg>> {
    match i
    case Move32(d, _) => [{d}]
    case Move48(d, _) => [Pair(d)]
    case MoveReg32(d, s) => [{d}, {s}]
    case AddImm32(d, s, _) => [{d}, {s}]
    case AddImm64(d, s, _) => [Pair(d), Pair(s)]
    case Add64(d, s0, s1) => [Pair(d), Pair(s0), Pair(s1)]
    case LshiftImm64(d, s, _) => [Pair(d), Pair(s)]
    case RshiftImmU32(d, s, _) => [{d}, {s}]
    case Load(b, a, m, _) => [Row(b, m), Pair(a)]
    case Store(b, a, m, _) => [Row(b, m), Pair(a)]
    case Branch(_, c, v) => if c == Always then [] else [{v}]
    case Jump(l, a) => [Pair(a), {l}]
    case _ => []
  }

  /** Executing `i` while loads to `flight` are outstanding reads or overwrites one of their registers.
      A job takes any register as a staging register. */
  predicate Clash(i: Instr, flight: set<Reg>) {
    if i.Run? then flight != {}
    else exists k :: 0 <= k < |Operands(i)| && Operands(i)[k] * flight != {}
  }

  /** The loads in flight after `i`; waiting on the load/store slot `ls` completes them all. */
  function Flight(ls: nat, i: Instr, flight: set<Reg>): set<Reg> {
    match i
    case Load(b, _, m, _) => flight + Row(b, m)
    case Wait(slots) => if ls in slots then {} else flight
    case _ => flight
  }

  // ----- Running a stream --------------------------------------------------------------------

  datatype Config = Config(pc: int, core: Core)

  /** One step of a flat instruction sequence. A branch is relative to the following instruction;
      outside the sequence (or at a JUMP, which a flat sequence has no use for) the machine rests. */
  function Step(p: seq<Instr>, c: Config): Config {
    if 0 <= c.pc < |p| then
      match p[c.pc]
      case Branch(rel, cond, v) =>
        c.(pc := if Holds(cond, Signed32(Get(c.core.regs, v))) then c.pc + 1 + rel else c.pc + 1)
      case Jump(_, _) => c
      case i => Config(c.pc + 1, ExecOp(i, c.core))
    else c
  }

  function Steps(p: seq<Instr>, c: Config, n: nat): Config
    decreases n
  {
    if n == 0 then c else Steps(p, Step(p, c), n - 1)
  }

  lemma {:induction false} StepsAdd(p: seq<Instr>, c: Config, m: nat, n: nat)
    ensures Steps(p, c, m + n) == Steps(p, Steps(p, c, m), n)
    decreases m
  {
    if m > 0 { StepsAdd(p, Step(p, c), m - 1, n); }
  }
}
