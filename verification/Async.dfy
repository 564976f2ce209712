/**
 The machine with asynchronous loads. A load is issued with its value, but until a WAIT on the
 load/store slot its registers hold anything, and may change at any step.
 */
module Async {
  import opened Isa
  import opened Structured
  import Preservation
  import Tracker

  /** `due` holds the values of the loads in flight. */
  datatype Late = Late(pc: int, core: Core, due: map<Reg, Word>)

  /** The registers and what is due as one synchronous register file. */
  function Settled(s: Late): Config {
    Config(s.pc, s.core.(regs := s.core.regs + s.due))
  }

  /** The registers of `b` are those of `a`, except that registers in flight hold anything. */
  ghost predicate Outside(a: map<Reg, Word>, b: map<Reg, Word>, flight: set<Reg>) {
    a - flight == b - flight
  }

  function DueAfter(ls: nat, i: Instr, s: Late): map<Reg, Word> {
    match i
    case Load(b, a, m, off) => s.due + LoadRow(map[], s.core.mem, b, m, Address(s.core.regs, a, off))
    case Wait(slots) => if ls in slots then map[] else s.due
    case _ => s.due
  }

  /** One step, on whatever the registers hold. */
  ghost predicate Next(ls: nat, p: seq<Instr>, s: Late, t: Late)
    requires 0 <= s.pc < |p|
  {
    var i := p[s.pc];
    && t.due == DueAfter(ls, i, s)
    && match i
       case Branch(rel, cond, v) =>
         && t.pc == (if Holds(cond, Signed32(Get(s.core.regs, v))) then s.pc + 1 + rel else s.pc + 1)
         && t.core.mem == s.core.mem && t.core.log == s.core.log
         && Outside(s.core.regs, t.core.regs, t.due.Keys)
       case Jump(_, _) => t.pc == s.pc && t.core.mem == s.core.mem && t.core.log == s.core.log
                          && Outside(s.core.regs, t.core.regs, t.due.Keys)
       case Wait(slots) =>
         && t.pc == s.pc + 1 && t.core.mem == s.core.mem && t.core.log == s.core.log
         && Outside(if ls in slots then s.core.regs + s.due else s.core.regs, t.core.regs, t.due.Keys)
       case _ =>
         var c := ExecOp(i, s.core);
         && t.pc == s.pc + 1 && t.core.mem == c.mem && t.core.log == c.log
         && Outside(c.regs, t.core.regs, t.due.Keys)
  }

  /** A run: any sequence of states the machine may go through. */
  ghost predicate Run(ls: nat, p: seq<Instr>, states: seq<Late>) {
    && |states| > 0
    && forall k :: 0 <= k < |states| - 1 ==> 0 <= states[k].pc < |p| && Next(ls, p, states[k], states[k + 1])
  }

  // ----- Registers outside the loads in flight -----------------------------------------------------

  lemma Overlay(a: map<Reg, Word>, b: map<Reg, Word>, due: map<Reg, Word>)
    requires Outside(a, b, due.Keys)
    ensures a + due == b + due
  {
    forall r | r in (a + due).Keys + (b + due).Keys
      ensures r in a + due && r in b + due && (a + due)[r] == (b + due)[r]
    {
      if r !in due {
        assert r in a - due.Keys <==> r in b - due.Keys;
        assert r in a - due.Keys ==> (a - due.Keys)[r] == (b - due.Keys)[r];
      }
    }
  }

  lemma {:induction false} LoadRowSplits(regs: map<Reg, Word>, row: map<Reg, Word>, mem: map<nat, Word>, base: Reg,
                                         mask: seq<bool>, a: nat)
    ensures LoadRow(regs + row, mem, base, mask, a) == regs + LoadRow(row, mem, base, mask, a)
    decreases |mask|
  {
    if mask != [] {
      if mask[0] {
        assert (regs + row)[base := Cell(mem, a)] == regs + row[base := Cell(mem, a)];
        LoadRowSplits(regs, row[base := Cell(mem, a)], mem, base + 1, mask[1..], a + 4);
      } else {
        LoadRowSplits(regs, row, mem, base + 1, mask[1..], a);
      }
    }
  }

  lemma {:induction false} LoadRowKeys(row: map<Reg, Word>, mem: map<nat, Word>, base: Reg, mask: seq<bool>, a: nat)
    ensures LoadRow(row, mem, base, mask, a).Keys == row.Keys + Row(base, mask)
    decreases |mask|
  {
    if mask != [] {
      RowSplits(base, mask);
      if mask[0] {
        LoadRowKeys(row[base := Cell(mem, a)], mem, base + 1, mask[1..], a + 4);
      } else {
        LoadRowKeys(row, mem, base + 1, mask[1..], a);
      }
    }
  }

  lemma RowSplits(base: Reg, mask: seq<bool>)
    requires mask != []
    ensures Row(base, mask) == (if mask[0] then {base} else {}) + Row(base + 1, mask[1..])
  {
    forall r | r in Row(base, mask) ensures r in (if mask[0] then {base} else {}) + Row(base + 1, mask[1..]) {
      var i :| 0 <= i < |mask| && mask[i] && r == base + i;
      if i > 0 { assert mask[1..][i - 1] && r == base + 1 + (i - 1); }
    }
    forall r | r in Row(base + 1, mask[1..]) ensures r in Row(base, mask) {
      var i :| 0 <= i < |mask| - 1 && mask[1..][i] && r == base + 1 + i;
      assert mask[i + 1] && r == base + (i + 1);
    }
    if mask[0] { assert base == base + 0; }
  }

  lemma {:induction false} StoreRowReads(mem: map<nat, Word>, r1: map<Reg, Word>, r2: map<Reg, Word>, base: Reg,
                                         mask: seq<bool>, a: nat)
    requires forall r :: r in Row(base, mask) ==> Get(r1, r) == Get(r2, r)
    ensures StoreRow(mem, r1, base, mask, a) == StoreRow(mem, r2, base, mask, a)
    decreases |mask|
  {
    if mask != [] {
      RowSplits(base, mask);
      if mask[0] {
        assert base in Row(base, mask);
        StoreRowReads(mem[a := Get(r1, base)], r1, r2, base + 1, mask[1..], a + 4);
      } else {
        StoreRowReads(mem, r1, r2, base + 1, mask[1..], a);
      }
    }
  }

  /** Registers an instruction names are out of flight. */
  lemma NoClash(i: Instr, due: map<Reg, Word>, k: nat)
    requires !Clash(i, due.Keys) && !i.Run? && k < |Operands(i)|
    ensures forall r :: r in Operands(i)[k] ==> r !in due
  {
    var hit := Operands(i)[k] * due.Keys;
    assert hit == {};
    assert forall r :: r in Operands(i)[k] && r in due ==> r in hit;
  }

  lemma Write32(a: map<Reg, Word>, due: map<Reg, Word>, d: Reg, v: Word)
    requires d !in due
    ensures (a + due)[d := v] == a[d := v] + due
  {
  }

  lemma Write64(a: map<Reg, Word>, due: map<Reg, Word>, d: Reg, v: nat)
    requires d !in due && d + 1 !in due
    ensures Put64(a + due, d, v) == Put64(a, d, v) + due
  {
    Write32(a, due, d, v % W32);
    Write32(a[d := v % W32], due, d + 1, (v / W32) % W32);
  }

  /** An instruction that touches no register in flight computes the same with and without the loads. */
  lemma OpAgrees(i: Instr, c: Core, due: map<Reg, Word>)
    requires Plain(i) && !i.Load? && !i.Wait? && !Clash(i, due.Keys)
    ensures ExecOp(i, c.(regs := c.regs + due)) == ExecOp(i, c).(regs := ExecOp(i, c).regs + due)
  {
    hide Clash, ExecOp;
    match i
    case Run(_) =>
      RunClash(i, due.Keys);
      assert c.regs + due == c.regs;
      RunSame(i, c, due);
    case Move32(_, _) => NarrowAgrees(i, c, due);
    case MoveReg32(_, _) => NarrowAgrees(i, c, due);
    case AddImm32(_, _, _) => NarrowAgrees(i, c, due);
    case RshiftImmU32(_, _, _) => NarrowAgrees(i, c, due);
    case Move48(_, _) => WideAgrees(i, c, due);
    case AddImm64(_, _, _) => WideAgrees(i, c, due);
    case Add64(_, _, _) => WideAgrees(i, c, due);
    case LshiftImm64(_, _, _) => WideAgrees(i, c, due);
    case Store(_, _, _, _) => StoreAgrees(i, c, due);
    case _ => RunSame(i, c, due);
  }

  lemma RunSame(i: Instr, c: Core, due: map<Reg, Word>)
    requires i.Nop? || (i.Run? && due.Keys == {})
    ensures ExecOp(i, c.(regs := c.regs + due)) == ExecOp(i, c).(regs := ExecOp(i, c).regs + due)
  {
    if i.Run? { assert c.regs + due == c.regs; }
  }

  lemma NarrowAgrees(i: Instr, c: Core, due: map<Reg, Word>)
    requires (i.Move32? || i.MoveReg32? || i.AddImm32? || i.RshiftImmU32?) && !Clash(i, due.Keys)
    ensures ExecOp(i, c.(regs := c.regs + due)) == ExecOp(i, c).(regs := ExecOp(i, c).regs + due)
  {
    hide Clash;
    NoClash(i, due, 0);
    assert i.dst in Operands(i)[0];
    if !i.Move32? {
      NoClash(i, due, 1);
      assert i.src in Operands(i)[1];
    }
    Write32(c.regs, due, i.dst, ExecOp(i, c).regs[i.dst]);
  }

  lemma WideAgrees(i: Instr, c: Core, due: map<Reg, Word>)
    requires (i.Move48? || i.AddImm64? || i.Add64? || i.LshiftImm64?) && !Clash(i, due.Keys)
    ensures ExecOp(i, c.(regs := c.regs + due)) == ExecOp(i, c).(regs := ExecOp(i, c).regs + due)
  {
    hide Clash, Put64, Get64;
    NoClash(i, due, 0);
    PairOut(i, due, 0, i.dst);
    match i
    case Move48(d, imm) => Write64(c.regs, due, d, imm);
    case AddImm64(d, s, imm) =>
      NoClash(i, due, 1);
      PairOut(i, due, 1, s);
      SamePair(c.regs, due, s);
      Write64(c.regs, due, d, (Get64(c.regs, s) + imm) % W64);
    case Add64(d, s0, s1) =>
      NoClash(i, due, 1);
      NoClash(i, due, 2);
      PairOut(i, due, 1, s0);
      PairOut(i, due, 2, s1);
      SamePair(c.regs, due, s0);
      SamePair(c.regs, due, s1);
      Write64(c.regs, due, d, (Get64(c.regs, s0) + Get64(c.regs, s1)) % W64);
    case LshiftImm64(d, s, k) =>
      NoClash(i, due, 1);
      PairOut(i, due, 1, s);
      SamePair(c.regs, due, s);
      Write64(c.regs, due, d, (Get64(c.regs, s) * Pow2(k)) % W64);
  }

  lemma SamePair(regs: map<Reg, Word>, due: map<Reg, Word>, r: Reg)
    requires r !in due && r + 1 !in due
    ensures Get64(regs + due, r) == Get64(regs, r)
  {
  }

  lemma StoreAgrees(i: Instr, c: Core, due: map<Reg, Word>)
    requires i.Store? && !Clash(i, due.Keys)
    ensures ExecOp(i, c.(regs := c.regs + due)) == ExecOp(i, c).(regs := ExecOp(i, c).regs + due)
  {
    hide Clash, Get64;
    NoClash(i, due, 0);
    NoClash(i, due, 1);
    PairOut(i, due, 1, i.addr);
    SamePair(c.regs, due, i.addr);
    assert Operands(i)[0] == Row(i.base, i.mask);
    StoreRowReads(c.mem, c.regs, c.regs + due, i.base, i.mask, Address(c.regs, i.addr, i.offset));
  }

  lemma RunClash(i: Instr, flight: set<Reg>)
    requires i.Run? && !Clash(i, flight)
    ensures flight == {}
  {
  }

  lemma PairOut(i: Instr, due: map<Reg, Word>, k: nat, r: Reg)
    requires k < |Operands(i)| && Operands(i)[k] == Pair(r)
    requires forall q :: q in Operands(i)[k] ==> q !in due
    ensures r !in due && r + 1 !in due
    ensures forall a: map<Reg, Word> :: Get64(a + due, r) == Get64(a, r)
  {
    assert r in Operands(i)[k] && r + 1 in Operands(i)[k];
  }

  // ----- Refinement ------------------------------------------------------------------------------

  lemma LoadAgrees(ls: nat, p: seq<Instr>, s: Late, t: Late)
    requires 0 <= s.pc < |p| && p[s.pc].Load? && Next(ls, p, s, t) && !Clash(p[s.pc], s.due.Keys)
    ensures Settled(t) == Step(p, Settled(s))
    ensures t.due.Keys == Flight(ls, p[s.pc], s.due.Keys)
  {
    hide Clash, Get64, LoadRow;
    var i := p[s.pc];
    var Load(b, a, m, off) := i;
    var regs, due := s.core.regs, s.due;
    NoClash(i, due, 1);
    PairOut(i, due, 1, a);
    SamePair(regs, due, a);
    var at := Address(regs, a, off);
    var row := LoadRow(map[], s.core.mem, b, m, at);
    LoadRowKeys(map[], s.core.mem, b, m, at);
    RowBehind(regs, due, s.core.mem, b, m, at);
    Overlay(regs + row, t.core.regs, t.due);
  }

  /** Loading the settled registers, or settling what has been loaded. */
  lemma RowBehind(regs: map<Reg, Word>, due: map<Reg, Word>, mem: map<nat, Word>, b: Reg, m: seq<bool>, at: nat)
    ensures var row := LoadRow(map[], mem, b, m, at);
            && LoadRow(regs, mem, b, m, at) == regs + row
            && LoadRow(regs + due, mem, b, m, at) == (regs + row) + (due + row)
  {
    hide LoadRow;
    var row := LoadRow(map[], mem, b, m, at);
    LoadRowSplits(regs, map[], mem, b, m, at);
    LoadRowSplits(regs + due, map[], mem, b, m, at);
    assert regs + map[] == regs && (regs + due) + map[] == regs + due;
    assert (regs + row) + (due + row) == (regs + due) + row;
  }

  /** A step that touches no register in flight is a step of the synchronous machine. */
  lemma StepAgrees(ls: nat, p: seq<Instr>, s: Late, t: Late)
    requires 0 <= s.pc < |p| && Next(ls, p, s, t) && !Clash(p[s.pc], s.due.Keys)
    ensures Settled(t) == Step(p, Settled(s))
    ensures t.due.Keys == Flight(ls, p[s.pc], s.due.Keys)
  {
    hide Clash;
    var i := p[s.pc];
    var regs, due := s.core.regs, s.due;
    match i
    case Branch(rel, cond, v) =>
      if cond != Always {
        NoClash(i, due, 0);
        assert v in Operands(i)[0];
      }
      Overlay(regs, t.core.regs, t.due);
    case Jump(_, _) => Overlay(regs, t.core.regs, t.due);
    case Wait(slots) => Overlay(if ls in slots then regs + due else regs, t.core.regs, t.due);
    case Load(b, a, m, off) => LoadAgrees(ls, p, s, t);
    case _ =>
      OpAgrees(i, s.core, due);
      Overlay(ExecOp(i, s.core).regs, t.core.regs, t.due);
  }

  /** Asynchronous loads cannot be observed: any run of the emitted code on the machine with
      asynchronous loads goes through the states of the synchronous machine, with the registers in
      flight replaced by the values they are about to receive. */
  lemma {:induction false} AsyncRefinesSync(ls: nat, s: Stmt, g: Ctx, head: Ls, states: seq<Late>)
    requires WellFormed(s, false, false) && Tracker.Covered(ls, s, g, head)
    requires var p := Preservation.Finish(Gen(ls, s, g, head).code);
             Run(ls, p, states) && states[0].pc == 0 && states[0].due.Keys <= g.tr.loads
    ensures var o := Gen(ls, s, g, head);
            var p := Preservation.Finish(o.code);
            var last := states[|states| - 1];
            && Settled(last) == Steps(p, Settled(states[0]), |states| - 1)
            && (last.pc == |p| ==> last.due.Keys <= o.ctx.tr.loads)
  {
    hide Gen, WellFormed, Tracker.Covered;
    var o := Gen(ls, s, g, head);
    Tracker.CodeIsSafe(ls, s, g, head);
    RunAgrees(ls, Preservation.Finish(o.code), Tracker.Loads(o.code, o.ctx.tr.loads), states);
  }

  lemma {:induction false} RunAgrees(ls: nat, p: seq<Instr>, f: seq<set<Reg>>, states: seq<Late>)
    requires |f| == |p| + 1 && Tracker.AllSafe(ls, p, f, 0, |p|)
    requires Run(ls, p, states) && states[0].pc == 0 && states[0].due.Keys <= f[0]
    ensures var last := states[|states| - 1];
            && Settled(last) == Steps(p, Settled(states[0]), |states| - 1)
            && 0 <= last.pc <= |p| && last.due.Keys <= f[last.pc]
    decreases |states|
  {
    if |states| > 1 {
      var n := |states| - 1;
      RunAgrees(ls, p, f, states[..n]);
      var s, t := states[n - 1], states[n];
      assert states[..n][n - 1] == s;
      assert Tracker.Safe(ls, p, f, s.pc);
      if Clash(p[s.pc], s.due.Keys) { Tracker.ClashGrows(p[s.pc], s.due.Keys, f[s.pc]); }
      StepAgrees(ls, p, s, t);
      StepsAdd(p, Settled(states[0]), n - 1, 1);
      assert Steps(p, Settled(s), 1) == Steps(p, Step(p, Settled(s)), 0);
    }
  }

  /** End to end: whenever a run of the emitted code on the asynchronous machine reaches the end of the
      code, its registers (with the loads still due, which the tracker knows), memory and job log are
      those of the structured program. */
  lemma AsyncMeaning(ls: nat, s: Stmt, g: Ctx, head: Ls, states: seq<Late>)
    requires WellFormed(s, false, false) && Tracker.Covered(ls, s, g, head)
    requires var p := Preservation.Finish(Gen(ls, s, g, head).code);
             && Run(ls, p, states) && states[0].pc == 0 && states[0].due.Keys <= g.tr.loads
             && states[|states| - 1].pc == |p|
    ensures var last := states[|states| - 1];
            && Preservation.Means(s, Settled(states[0]).core, Settled(last).core)
            && last.due.Keys <= Gen(ls, s, g, head).ctx.tr.loads
  {
    hide Gen, WellFormed, Tracker.Covered;
    AsyncRefinesSync(ls, s, g, head, states);
    var p := Preservation.Finish(Gen(ls, s, g, head).code);
    assert Steps(p, Config(0, Settled(states[0]).core), |states| - 1)
            == Config(|p|, Settled(states[|states| - 1]).core);
    Preservation.CompilationPreservesMeaning(ls, s, g, head, Settled(states[0]).core,
                                             Settled(states[|states| - 1]).core);
  }
}
