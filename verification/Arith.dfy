/** Multiplication and division by constants: the instructions the builder emits for them, and what those compute. */
module Arith {
  import opened Isa
  import opened Structured
  import opened Labels
  import opened B = Builder
  import opened Numbers

  // ----- Straight-line code ---------------------------------------------------------------------------

  /** A straight line of instructions, as a program. */
  function Ops(ops: seq<Instr>): Stmt {
    if ops == [] then Skip else Stmt.Seq(Ops(ops[..|ops| - 1]), Op(ops[|ops| - 1]))
  }

  function RunOps(ops: seq<Instr>, c: Core): Core {
    if ops == [] then c else ExecOp(ops[|ops| - 1], RunOps(ops[..|ops| - 1], c))
  }

  lemma {:induction false} OpsMean(ops: seq<Instr>, fuel: nat, c: Core)
    ensures Exec(Ops(ops), fuel, c) == Done(RunOps(ops, c))
  {
    if ops != [] { OpsMean(ops[..|ops| - 1], fuel, c); }
  }

  lemma RunMore(ops: seq<Instr>, i: Instr, c: Core)
    ensures RunOps(ops + [i], c) == ExecOp(i, RunOps(ops, c))
    ensures Ops(ops + [i]) == Stmt.Seq(Ops(ops), Op(i))
  {
    assert (ops + [i])[..|ops|] == ops;
  }

  /** The block so far ends in the code of `ops`. */
  ghost predicate Built(b: Builder, ops: seq<Instr>, before: seq<Instr>, g: Structured.Ctx)
    reads b, b.cur, b.pending, b.pending.block, b.pending.endLabel
  {
    var o := Gen(b.lsSlot, Ops(ops), g, IDLE);
    b.Valid() && b.cur.now == o.ctx.tr && forall start :: Appended(b.View(), before, o.code, start)
  }

  method Emit1(b: Builder, i: Instr, ghost ops: seq<Instr>, ghost before: seq<Instr>, ghost g: Structured.Ctx)
    requires Plain(i) && b.Outer() != null && Built(b, ops, before, g)
    modifies b`instrs, b`stack, b.Closing(), b.cur
    ensures b.Outer() == old(b.Outer()) && b.Closing() == {} && Built(b, ops + [i], before, g)
  {
    hide Patch, Chained, AllNear, Appended, GenOp;
    ghost var mid, x := b.View(), Gen(b.lsSlot, Ops(ops), g, IDLE);
    b.EmitOp(i);
    PatchNothing(b.instrs, |b.instrs|);
    GenMore(b.lsSlot, ops, i, g);
    forall start ensures Appended(b.View(), before, Gen(b.lsSlot, Ops(ops + [i]), g, IDLE).code, start) {
      AppendedTwice(before, mid, b.View(), x.code, GenOp(b.lsSlot, i, x.ctx.tr).code, start);
    }
  }

  lemma GenMore(ls: nat, ops: seq<Instr>, i: Instr, g: Structured.Ctx)
    ensures var x, y := Gen(ls, Ops(ops), g, IDLE), Gen(ls, Ops(ops + [i]), g, IDLE);
            var p := GenOp(ls, i, x.ctx.tr);
            y.code == x.code + p.code && y.ctx.tr == p.tr && y.ctx.ifLs == x.ctx.ifLs
  {
    hide GenOp;
    RunMore(ops, i, Core(map[], map[], []));
    assert Gen(ls, Op(i), Gen(ls, Ops(ops), g, IDLE).ctx, IDLE).code
            == GenOp(ls, i, Gen(ls, Ops(ops), g, IDLE).ctx.tr).code;
  }

  // ----- Multiplication -------------------------------------------------------------------------------

  /** The highest bit set; util_last_bit64 less one. */
  function TopBit(n: nat): (k: nat)
    requires n > 0
    ensures Pow2(k) <= n < 2 * Pow2(k)
  {
    if n == 1 then 0 else 1 + TopBit(n / 2)
  }

  /** What is emitted for one bit: the next one is `shift` lower. */
  function MulBit(dest: Reg, src: Reg, shift: nat, first: bool): seq<Instr> {
    if first then [LshiftImm64(dest, src, shift)]
    else if shift > 0 then [Add64(dest, dest, src), LshiftImm64(dest, dest, shift)]
    else [Add64(dest, dest, src)]
  }

  /** What cs_umul64 emits for the bits of `imm`, from the top. */
  function MulFrom(dest: Reg, src: Reg, imm: nat, first: bool): seq<Instr>
    decreases imm
  {
    if imm == 0 then []
    else
      var rest := imm - Pow2(TopBit(imm));
      RestIsLower(imm);
      var shift := TopBit(imm) - if rest == 0 then 0 else TopBit(rest);
      MulBit(dest, src, shift, first) + MulFrom(dest, src, rest, false)
  }

  function Mul(dest: Reg, src: Reg, imm: nat): seq<Instr> {
    if imm == 0 then [Move48(dest, 0)] else MulFrom(dest, src, imm, true)
  }

  /** The rest is below the bit just taken, so the shift never goes the wrong way. */
  lemma RestIsLower(imm: nat)
    requires imm > 0
    ensures imm - Pow2(TopBit(imm)) > 0 ==> TopBit(imm - Pow2(TopBit(imm))) < TopBit(imm)
  {
    if imm - Pow2(TopBit(imm)) > 0 {
      var a, b := TopBit(imm - Pow2(TopBit(imm))), TopBit(imm);
      if a >= b { Pow2Grows(b, a); }
    }
  }

  lemma {:induction false} Pow2Grows(a: nat, b: nat)
    requires a <= b
    ensures Pow2(a) <= Pow2(b)
    decreases b
  {
    if a < b { Pow2Grows(a, b - 1); }
  }

  lemma {:induction false} Pow2Add(a: nat, b: nat)
    ensures Pow2(a + b) == Pow2(a) * Pow2(b)
    decreases a
  {
    if a > 0 { Pow2Add(a - 1, b); }
  }

  /** Registers other than the two of `dest` are as before, and so is everything else. */
  ghost predicate OnlyPair(c: Core, d: Core, dest: Reg) {
    d.mem == c.mem && d.log == c.log && forall r :: r != dest && r != dest + 1 ==> Get(d.regs, r) == Get(c.regs, r)
  }

  lemma PutGet(regs: map<Reg, Word>, d: Reg, v: nat)
    requires v < W64
    ensures Get64(Put64(regs, d, v), d) == v
    ensures forall r :: r != d && r != d + 1 ==> Get(Put64(regs, d, v), r) == Get(regs, r)
  {
  }

  lemma ModMul(a: nat, b: nat)
    ensures ((a % W64) * b) % W64 == (a * b) % W64
  {
    var q := a / W64;
    assert a == q * W64 + a % W64;
    assert a * b == (q * b) * W64 + (a % W64) * b;
    ModPlus(q * b, (a % W64) * b);
  }

  lemma {:induction false} ModPlus(k: nat, x: nat)
    ensures (k * W64 + x) % W64 == x % W64
    decreases k
  {
    if k > 0 {
      ModPlus(k - 1, x);
      assert k * W64 + x == (k - 1) * W64 + x + W64;
      assert forall y: nat :: (y + W64) % W64 == y % W64;
    }
  }

  ghost predicate Product(v: nat, x: nat, k: nat) {
    v == (x * k) % W64
  }

  lemma ProductShift(v: nat, x: nat, k: nat, m: nat)
    requires Product(v, x, k)
    ensures Product((v * m) % W64, x, k * m)
  {
    ModMul(x * k, m);
    assert x * k * m == x * (k * m);
  }

  lemma ProductAdd(v: nat, x: nat, k: nat)
    requires Product(v, x, k)
    ensures Product((v + x) % W64, x, k + 1)
  {
    assert x * (k + 1) == x * k + x;
    var q := (x * k) / W64;
    ModPlus(q, (x * k) % W64 + x);
    assert x * k + x == q * W64 + ((x * k) % W64 + x);
  }

  /** One shift: from the source, or in place. */
  lemma RunShift(c: Core, dest: Reg, src: Reg, shift: nat, x: nat, k: nat)
    requires Product(Get64(c.regs, src), x, k)
    ensures var d := ExecOp(LshiftImm64(dest, src, shift), c);
            Product(Get64(d.regs, dest), x, k * Pow2(shift)) && OnlyPair(c, d, dest)
  {
    hide Product, Get64, Put64;
    var v := (Get64(c.regs, src) * Pow2(shift)) % W64;
    ProductShift(Get64(c.regs, src), x, k, Pow2(shift));
    PutGet(c.regs, dest, v);
  }

  lemma RunAdd(c: Core, dest: Reg, src: Reg, x: nat, k: nat)
    requires Product(Get64(c.regs, dest), x, k) && Get64(c.regs, src) == x
    ensures var d := ExecOp(Add64(dest, dest, src), c);
            Product(Get64(d.regs, dest), x, k + 1) && OnlyPair(c, d, dest)
  {
    hide Product, Get64, Put64;
    ProductAdd(Get64(c.regs, dest), x, k);
    PutGet(c.regs, dest, (Get64(c.regs, dest) + x) % W64);
  }

  /** A pair that the code does not write. */
  lemma KeptPair(c: Core, d: Core, dest: Reg, src: Reg)
    requires OnlyPair(c, d, dest) && src != dest && src + 1 != dest && src != dest + 1
    ensures Get64(d.regs, src) == Get64(c.regs, src)
  {
  }

  lemma OnlyPairTwice(a: Core, b: Core, c: Core, dest: Reg)
    requires OnlyPair(a, b, dest) && OnlyPair(b, c, dest)
    ensures OnlyPair(a, c, dest)
  {
  }

  lemma {:induction false} RunConcat(a: seq<Instr>, b: seq<Instr>, c: Core)
    ensures RunOps(a + b, c) == RunOps(b, RunOps(a, c))
    decreases |b|
  {
    if b == [] {
      assert a + b == a;
    } else {
      RunConcat(a, b[..|b| - 1], c);
      assert (a + b)[..|a + b| - 1] == a + b[..|b| - 1];
    }
  }

  /** The factor once `imm` has been worked off, with `high` the factor so far. */
  function Total(high: nat, imm: nat): nat {
    if imm == 0 then high else high * Pow2(TopBit(imm)) + imm
  }

  /** The factor after one more bit, moved up by `shift`. */
  function Higher(high: nat, shift: nat): (h: nat)
    ensures h > 0
  {
    MulGrows(1, high + 1, Pow2(shift));
    (high + 1) * Pow2(shift)
  }

  /** Horner's rule over the set bits, from the top. */
  lemma {:induction false} MulFromIs(dest: Reg, src: Reg, imm: nat, high: nat, c: Core)
    requires src != dest && src + 1 != dest && src != dest + 1
    requires high > 0 ==> Product(Get64(c.regs, dest), Get64(c.regs, src), high)
    requires high > 0 || imm > 0
    ensures var d := RunOps(MulFrom(dest, src, imm, high == 0), c);
            Product(Get64(d.regs, dest), Get64(c.regs, src), Total(high, imm)) && OnlyPair(c, d, dest)
    decreases imm
  {
    hide RunOps, OnlyPair, Get64, TopBit, Product, MulBit, Higher, Pow2;
    if imm > 0 {
      var rest := imm - Pow2(TopBit(imm));
      RestIsLower(imm);
      var low := if rest == 0 then 0 else TopBit(rest);
      var shift := TopBit(imm) - low;
      var ops := MulBit(dest, src, shift, high == 0);
      var d := RunOps(ops, c);
      MulStep(dest, src, high, shift, c);
      KeptPair(c, d, dest, src);
      MulFromIs(dest, src, rest, Higher(high, shift), d);
      RunConcat(ops, MulFrom(dest, src, rest, false), c);
      OnlyPairTwice(c, d, RunOps(MulFrom(dest, src, imm, high == 0), c), dest);
      hide Total;
      Horner(high, imm, rest, low);
    } else {
      NoOps(c, dest);
    }
  }

  lemma NoOps(c: Core, dest: Reg)
    ensures RunOps([], c) == c && OnlyPair(c, c, dest)
  {
  }

  lemma Horner(high: nat, imm: nat, rest: nat, low: nat)
    requires imm > 0 && rest == imm - Pow2(TopBit(imm)) && low == (if rest == 0 then 0 else TopBit(rest))
    requires low <= TopBit(imm)
    ensures Total(Higher(high, TopBit(imm) - low), rest) == Total(high, imm)
  {
    hide TopBit, Pow2;
    var shift := TopBit(imm) - low;
    Pow2Add(shift, low);
    Associates(high + 1, Pow2(shift), Pow2(low));
    Distributes(Pow2(shift) * Pow2(low), high, 1);
    if rest == 0 { Pow0(); }
  }

  lemma Pow0()
    ensures Pow2(0) == 1
  {
  }

  lemma MulStep(dest: Reg, src: Reg, high: nat, shift: nat, c: Core)
    requires src != dest && src + 1 != dest && src != dest + 1
    requires high > 0 ==> Product(Get64(c.regs, dest), Get64(c.regs, src), high)
    ensures var d := RunOps(MulBit(dest, src, shift, high == 0), c);
            Product(Get64(d.regs, dest), Get64(c.regs, src), Higher(high, shift)) && OnlyPair(c, d, dest)
  {
    hide ExecOp, Get64, Product, OnlyPair, Pow2;
    var x := Get64(c.regs, src);
    NoOps(c, dest);
    if high == 0 {
      RunMore([], LshiftImm64(dest, src, shift), c);
      assert Product(x, x, 1) by { Itself(x); }
      RunShift(c, dest, src, shift, x, 1);
    } else {
      var d := ExecOp(Add64(dest, dest, src), c);
      RunMore([], Add64(dest, dest, src), c);
      RunAdd(c, dest, src, x, high);
      if shift > 0 {
        RunMore([Add64(dest, dest, src)], LshiftImm64(dest, dest, shift), c);
        RunShift(d, dest, dest, shift, x, high + 1);
        OnlyPairTwice(c, d, ExecOp(LshiftImm64(dest, dest, shift), d), dest);
      } else {
        Whole(high + 1, shift);
      }
    }
  }

  lemma Itself(x: nat)
    requires x < W64
    ensures Product(x, x, 1)
  {
  }

  lemma Whole(k: nat, shift: nat)
    requires shift == 0
    ensures k * Pow2(shift) == k
  {
  }

  /** cs_umul64: the destination gets the product modulo 2^64; the source and everything else stay. */
  lemma MulIs(dest: Reg, src: Reg, imm: nat, c: Core)
    requires src != dest && src + 1 != dest && src != dest + 1
    ensures var d := RunOps(Mul(dest, src, imm), c);
            && Get64(d.regs, dest) == (Get64(c.regs, src) * imm) % W64
            && OnlyPair(c, d, dest) && Get64(d.regs, src) == Get64(c.regs, src)
  {
    if imm == 0 {
      RunMore([], Move48(dest, 0), c);
      PutGet(c.regs, dest, 0);
    } else {
      MulFromIs(dest, src, imm, 0, c);
    }
    KeptPair(c, RunOps(Mul(dest, src, imm), c), dest, src);
  }

  method EmitBit(b: Builder, dest: Reg, src: Reg, shift: nat, first: bool, ghost ops: seq<Instr>,
                 ghost before: seq<Instr>, ghost g: Structured.Ctx)
    requires b.Outer() != null && Built(b, ops, before, g)
    modifies b`instrs, b`stack, b.Closing(), b.cur
    ensures b.Outer() == old(b.Outer()) && b.Closing() == {}
    ensures Built(b, ops + MulBit(dest, src, shift, first), before, g)
  {
    hide Built;
    if first {
      Emit1(b, LshiftImm64(dest, src, shift), ops, before, g);
    } else {
      Emit1(b, Add64(dest, dest, src), ops, before, g);
      if shift > 0 {
        Emit1(b, LshiftImm64(dest, dest, shift), ops + [Add64(dest, dest, src)], before, g);
        assert ops + [Add64(dest, dest, src)] + [LshiftImm64(dest, dest, shift)]
                == ops + MulBit(dest, src, shift, first);
      }
    }
  }

  /** The bits of the constant are cleared with a 32-bit mask, so it has to fit 32 bits. */
  method Umul64(b: Builder, dest: Reg, src: Reg, imm: nat, ghost before: seq<Instr>, ghost done: seq<Instr>,
                ghost g: Structured.Ctx)
    requires b.Outer() != null && dest != src && imm < W32 && Built(b, done, before, g)
    modifies b`instrs, b`stack, b.Closing(), b.cur
    ensures b.Outer() == old(b.Outer()) && b.Closing() == {}
    ensures Built(b, done + Mul(dest, src, imm), before, g)
  {
    hide Built, MulFrom, MulBit, TopBit, Pow2, Gen, Exec, GenCases, Patch, Chained, AllNear, Appended;
    if imm == 0 {
      Emit1(b, Move48(dest, 0), done, before, g);
      return;
    }
    var left: nat, first := imm, true;
    ghost var ops := done;
    while left != 0
      invariant b.Outer() == old(b.Outer()) && b.Outer() != null
      invariant (if first then b.Closing() == old(b.Closing()) else b.Closing() == {})
      invariant Built(b, ops, before, g) && b.cur == old(b.cur) && (first ==> left == imm)
      invariant done + Mul(dest, src, imm) == ops + MulFrom(dest, src, left, first)
      decreases left
    {
      var bit := TopBit(left);
      MulUnfold(dest, src, left, first);
      left := left - Pow2(bit);
      var nextBit := if left == 0 then 0 else TopBit(left);
      EmitBit(b, dest, src, bit - nextBit, first, ops, before, g);
      ops := ops + MulBit(dest, src, bit - nextBit, first);
      first := false;
    }
    MulDone(dest, src, first);
    assert ops + [] == ops;
  }

  lemma MulUnfold(dest: Reg, src: Reg, imm: nat, first: bool)
    requires imm > 0
    ensures var rest := imm - Pow2(TopBit(imm));
            var low := if rest == 0 then 0 else TopBit(rest);
            && low <= TopBit(imm)
            && MulFrom(dest, src, imm, first) == MulBit(dest, src, TopBit(imm) - low, first)
                   + MulFrom(dest, src, rest, false)
  {
    RestIsLower(imm);
  }

  lemma MulDone(dest: Reg, src: Reg, first: bool)
    ensures MulFrom(dest, src, 0, first) == []
  {
  }

  // ----- Division -------------------------------------------------------------------------------------

  /** What util_compute_fast_udiv_info returns. */
  datatype UdivInfo = UdivInfo(multiplier: nat, preShift: nat, postShift: nat, increment: nat)

  /** Its contract: the divisor without the zero bits shifted out first is `d`, and the multiplier is
      2^(32 + postShift) over `d`, rounded up, or rounded down when there is an increment. `e` is the error
      of rounding, with the usual bound. */
  ghost predicate Suits(info: UdivInfo, imm: nat, d: nat, e: nat) {
    var k := Pow2(32 + info.postShift);
    && info.multiplier < W32 && info.preShift <= 32 && info.increment <= 1
    && d > 0 && imm == Pow2(info.preShift) * d
    && e * Pow2(32 - info.preShift) <= k
    && if info.increment == 0 then info.multiplier * d == k + e else info.multiplier * d + e == k && e > 0
  }

  /** Dividing by the multiplier and a power of two is dividing by the divisor. */
  lemma RoundedUp(y: nat, m: nat, d: nat, k: nat, e: nat)
    requires d > 0 && k > 0 && m * d == k + e && y * e < k
    ensures (y * m) / k == y / d
  {
    Split(y, d);
    UpExact(y, m, d, k, e, y / d, y % d);
  }

  lemma UpExact(y: nat, m: nat, d: nat, k: nat, e: nat, q: nat, r: nat)
    requires k > 0 && m * d == k + e && y * e < k && y == q * d + r && r < d
    ensures (y * m) / k == q
  {
    Associates(y, m, d);
    Distributes(y, k, e);
    Distributes(k, q * d, r);
    Distributes(k, r, 1);
    MulGrows(r + 1, d, k);
    Between(y * m, k, d, q, r * k + y * e);
  }

  /** `n` times `d` is `q` times `d * k` and a rest below `d * k`. */
  lemma Between(n: nat, k: nat, d: nat, q: nat, rest: nat)
    requires d > 0 && k > 0 && n * d == (q * d) * k + rest && rest < d * k
    ensures n / k == q
  {
    var t := n - q * k;
    assert (q * k) * d == (q * d) * k;
    assert t * d == n * d - (q * k) * d;
    Factor(t, d, k);
    Quotient(n, k, q, t);
  }

  lemma RoundedDown(y: nat, m: nat, d: nat, k: nat, e: nat)
    requires d > 0 && k > 0 && m * d + e == k && e > 0 && (y + 1) * e <= k
    ensures ((y + 1) * m) / k == y / d
  {
    Split(y, d);
    DownExact(y + 1, m, d, k, e, y / d, y % d + 1);
  }

  lemma DownExact(z: nat, m: nat, d: nat, k: nat, e: nat, q: nat, r: nat)
    requires k > 0 && m * d + e == k && e > 0 && 0 < z * e <= k && z == q * d + r && 0 < r <= d
    ensures (z * m) / k == q
  {
    Associates(z, m, d);
    Distributes(z, m * d, e);
    Distributes(k, q * d, r);
    MulGrows(r, d, k);
    MulGrows(1, r, k);
    Between(z * m, k, d, q, r * k - z * e);
  }

  predicate IsPow2(n: nat) {
    n > 0 && n == Pow2(TopBit(n))
  }

  /** The dividend, shifted and incremented, as a 64-bit value. */
  function Scaled(src: Reg, scratch: Reg, info: UdivInfo): seq<Instr> {
    (if info.preShift > 0 then [RshiftImmU32(scratch, src, info.preShift)] else [])
    + (if info.increment != 0 then [AddImm32(scratch, if info.preShift > 0 then scratch else src, info.increment)]
       else [])
    + (if info.preShift == 0 && info.increment == 0 then [MoveReg32(scratch, src)] else [])
    + [Move32(scratch + 1, 0)]
  }

  /** What cs_udiv32 emits; four scratch registers. */
  function Div(dest: Reg, src: Reg, imm: nat, scratch: Reg, info: UdivInfo): seq<Instr> {
    if IsPow2(imm) then [RshiftImmU32(dest, src, TopBit(imm))]
    else
      Scaled(src, scratch, info) + Mul(scratch + 2, scratch, info.multiplier)
              + [RshiftImmU32(dest, scratch + 3, info.postShift)]
  }

  lemma DivDiv(n: nat, a: nat, b: nat)
    requires a > 0 && b > 0
    ensures a * b > 0 && n / a / b == n / (a * b)
  {
    var m := n / a;
    var q, r, s := m / b, m % b, n % a;
    Split(n, a);
    Split(m, b);
    Nested(n, m, a, b, q, r, s);
    MulGrows(1, b, a);
    MulGrows(0, r, a);
    MulGrows(r, b - 1, a);
    assert (b - 1) * a == b * a - a;
    Quotient(n, a * b, q, r * a + s);
  }

  lemma Nested(n: nat, m: nat, a: nat, b: nat, q: nat, r: nat, s: nat)
    requires n == m * a + s && m == q * b + r
    ensures n == q * (a * b) + (r * a + s) && a * b == b * a
  {
    assert (q * b + r) * a == (q * b) * a + r * a;
    assert (q * b) * a == q * (a * b);
  }

  lemma Pow32()
    ensures Pow2(32) == W32
  {
    assert Pow2(8) == 256;
    Pow2Add(8, 8);
    Pow2Add(16, 16);
  }

  lemma Pow2Divides(k: nat)
    requires k <= 32
    ensures Pow2(32 - k) * Pow2(k) == W32 && W32 / Pow2(k) == Pow2(32 - k)
  {
    hide Pow2;
    Pow32();
    Pow2Add(32 - k, k);
    Quotient(W32, Pow2(k), Pow2(32 - k), 0);
  }

  lemma RunShift32(c: Core, d: Reg, s: Reg, k: nat)
    ensures Get(ExecOp(RshiftImmU32(d, s, k), c).regs, d) == Shifted(Get(c.regs, s), k)
  {
    hide Pow2;
    var q := Shifted(Get(c.regs, s), k);
    SmallerQuotient(Get(c.regs, s), Pow2(k));
    Below(q);
    assert ExecOp(RshiftImmU32(d, s, k), c) == c.(regs := c.regs[d := q % W32]);
  }

  lemma Below(q: nat)
    requires q < W32
    ensures q % W32 == q
  {
  }

  function Divided(n: nat, d: nat): nat
    requires d > 0
  {
    n / d
  }

  /** A shift to the right. */
  function Shifted(n: nat, k: nat): nat {
    Divided(n, Pow2(k))
  }

  lemma RunAdd32(c: Core, d: Reg, s: Reg, i: nat)
    ensures Get(ExecOp(AddImm32(d, s, i), c).regs, d) == (Get(c.regs, s) + i) % W32
  {
  }

  lemma RunMove32(c: Core, d: Reg, s: Reg)
    ensures Get(ExecOp(MoveReg32(d, s), c).regs, d) == Get(c.regs, s)
  {
  }

  lemma RunClear(c: Core, d: Reg)
    ensures Get64(ExecOp(Move32(d + 1, 0), c).regs, d) == Get(c.regs, d)
  {
  }

  /** The scaled dividend: what the first instructions leave in the scratch pair. */
  lemma ScaledIs(src: Reg, scratch: Reg, info: UdivInfo, c: Core)
    requires info.increment <= 1
    ensures Get64(RunOps(Scaled(src, scratch, info), c).regs, scratch)
                == (Shifted(Get(c.regs, src), info.preShift) + info.increment) % W32
  {
    hide RunOps, ExecOp, Get64, Get, Shifted;
    var from := if info.preShift > 0 then scratch else src;
    var a := if info.preShift > 0 then [RshiftImmU32(scratch, src, info.preShift)] else [];
    var b := if info.increment != 0 then [AddImm32(scratch, from, info.increment)] else [];
    var m := if info.preShift == 0 && info.increment == 0 then [MoveReg32(scratch, src)] else [];
    RunConcat(a, b, c);
    RunConcat(a + b, m, c);
    RunConcat(a + b + m, [Move32(scratch + 1, 0)], c);
    var c1 := RunOps(a, c);
    var c2 := RunOps(b, c1);
    var c3 := RunOps(m, c2);
    RunFew(a, c);
    RunFew(b, c1);
    RunFew(m, c2);
    RunFew([Move32(scratch + 1, 0)], c3);
    RunShift32(c, scratch, src, info.preShift);
    RunAdd32(c1, scratch, from, info.increment);
    RunMove32(c2, scratch, src);
    RunClear(c3, scratch);
    NoShift(Get(c.regs, src), info.preShift);
  }

  lemma NoShift(n: nat, k: nat)
    ensures Shifted(n, k) <= n && Shifted(n, 0) == n
  {
    SmallerQuotient(n, Pow2(k));
  }

  lemma RunFew(ops: seq<Instr>, c: Core)
    requires |ops| <= 1
    ensures RunOps(ops, c) == if ops == [] then c else ExecOp(ops[0], c)
  {
    if ops != [] { assert RunOps(ops[..0], c) == c; }
  }

  lemma SmallerQuotient(n: nat, k: nat)
    requires k > 0
    ensures n / k <= n
  {
    MulGrows(1, k, n / k);
  }

  lemma QuotientUp(y: nat, m: nat, d: nat, k: nat, e: nat, cap: nat)
    requires y < cap && e * cap <= k && k > 0 && d > 0 && m * d == k + e
    ensures (y * m) / k == y / d
  {
    MulGrows(y, cap - 1, e);
    assert (cap - 1) * e == e * cap - e;
    assert e == 0 ==> y * e == 0;
    assert y * e < k;
    RoundedUp(y, m, d, k, e);
  }

  lemma QuotientDown(y: nat, m: nat, d: nat, k: nat, e: nat, cap: nat)
    requires y < cap && e * cap <= k && k > 0 && d > 0 && m * d + e == k && e > 0
    ensures ((y + 1) * m) / k == y / d
  {
    MulGrows(y + 1, cap, e);
    assert cap * e == e * cap;
    RoundedDown(y, m, d, k, e);
  }

  /** Both shifts together. */
  lemma HighShifted(z: nat, post: nat)
    ensures Shifted(z / W32, post) == z / Pow2(32 + post)
  {
    hide Pow2;
    Pow2Add(32, post);
    Pow32();
    DivDiv(z, W32, Pow2(post));
  }

  lemma ShiftedThen(n: nat, shift: nat, d: nat)
    requires d > 0 && n < W32 && shift <= 32
    ensures Pow2(shift) * d > 0 && Shifted(n, shift) / d == n / (Pow2(shift) * d)
    ensures Shifted(n, shift) < Pow2(32 - shift)
  {
    hide Pow2;
    DivDiv(n, Pow2(shift), d);
    Pow2Divides(shift);
    YBound(n, Pow2(shift), Pow2(32 - shift));
  }

  lemma YBound(n: nat, p: nat, cap: nat)
    requires p > 0 && n < W32 && cap * p == W32
    ensures n / p <= cap - 1
  {
    Split(n, p);
    if n / p >= cap { MulGrows(cap, n / p, p); }
  }

  /** The numbers behind the fast division: the high half of the product, shifted, is the quotient. */
  lemma FastQuotient(n: nat, imm: nat, info: UdivInfo, d: nat, e: nat)
    requires n < W32 && imm > 0 && Suits(info, imm, d, e)
    ensures Shifted(((Shifted(n, info.preShift) + info.increment) * info.multiplier) / W32, info.postShift) == n / imm
  {
    hide Pow2, Shifted;
    var k, y, cap := Pow2(32 + info.postShift), Shifted(n, info.preShift), Pow2(32 - info.preShift);
    ShiftedThen(n, info.preShift, d);
    HighShifted((y + info.increment) * info.multiplier, info.postShift);
    if info.increment == 0 {
      QuotientUp(y, info.multiplier, d, k, e, cap);
    } else {
      QuotientDown(y, info.multiplier, d, k, e, cap);
    }
  }

  /** The product as the machine has it: the multiplicand fits 32 bits, so nothing is lost. */
  lemma HighHalf(c: Core, d: Core, x: nat, m: nat, pair: Reg)
    requires x < W32 && m < W32 && Get64(d.regs, pair) == (x * m) % W64
    ensures Get(d.regs, pair + 1) == (x * m) / W32
  {
    MulGrows(x, W32 - 1, m);
    MulGrows(m, W32 - 1, W32 - 1);
    MulGrows(0, x, m);
    assert x * m < W64;
    Quotient(x * m, W32, Get(d.regs, pair + 1), Get(d.regs, pair));
  }

  /** cs_udiv32 divides exactly, unless the increment makes the scaled dividend wrap 32 bits: then it
      returns 0. With a power of two there is nothing to wrap. */
  lemma DivIs(dest: Reg, src: Reg, imm: nat, scratch: Reg, info: UdivInfo, d: nat, e: nat, c: Core)
    requires 0 < imm < W32 && (!IsPow2(imm) ==> Suits(info, imm, d, e))
    ensures var n, v := Get(c.regs, src), Get(RunOps(Div(dest, src, imm, scratch, info), c).regs, dest);
            && (v == n / imm <==> IsPow2(imm) || Shifted(n, info.preShift) + info.increment < W32)
            && (v == n / imm || v == 0)
  {
    hide RunOps, ExecOp, Get64, Shifted, Pow2, Mul, Scaled;
    var n := Get(c.regs, src);
    if IsPow2(imm) {
      RunFew([RshiftImmU32(dest, src, TopBit(imm))], c);
      RunShift32(c, dest, src, TopBit(imm));
      ShiftedIs(n, imm);
    } else {
      var y := Shifted(n, info.preShift) + info.increment;
      var last := RshiftImmU32(dest, scratch + 3, info.postShift);
      var mul := Mul(scratch + 2, scratch, info.multiplier);
      var c1 := RunOps(Scaled(src, scratch, info), c);
      var c2 := RunOps(mul, c1);
      RunConcat(Scaled(src, scratch, info), mul, c);
      RunMore(Scaled(src, scratch, info) + mul, last, c);
      ScaledIs(src, scratch, info, c);
      MulIs(scratch + 2, scratch, info.multiplier, c1);
      HighHalf(c1, c2, y % W32, info.multiplier, scratch + 2);
      RunShift32(c2, dest, scratch + 3, info.postShift);
      NoShift(n, info.preShift);
      if y < W32 {
        Below(y);
        FastQuotient(n, imm, info, d, e);
      } else {
        Wraps(n, imm, info, d, e);
      }
    }
  }

  lemma ShiftedIs(n: nat, imm: nat)
    requires IsPow2(imm)
    ensures Shifted(n, TopBit(imm)) == n / imm
  {
  }

  /** Only the largest dividend wraps; its quotient is not 0. */
  lemma Wraps(n: nat, imm: nat, info: UdivInfo, d: nat, e: nat)
    requires n < W32 && 0 < imm < W32 && Suits(info, imm, d, e) && Shifted(n, info.preShift) + info.increment >= W32
    ensures (Shifted(n, info.preShift) + info.increment) % W32 == 0 && n / imm > 0
    ensures Shifted((0 * info.multiplier) / W32, info.postShift) == 0
  {
    NoShift(n, info.preShift);
    assert n == W32 - 1;
    Split(n, imm);
    hide Pow2;
    ZeroShifted(info.postShift);
  }

  /** What the compiler's helper gives for a divisor of 7. */
  const BY_SEVEN: UdivInfo := UdivInfo(2454267026, 0, 2, 1)

  /** The largest dividend, divided by 7, gives 0. */
  lemma SevenWraps(dest: Reg, src: Reg, scratch: Reg, c: Core)
    requires Get(c.regs, src) == W32 - 1
    ensures Suits(BY_SEVEN, 7, 7, 2) && !IsPow2(7)
    ensures Get(RunOps(Div(dest, src, 7, scratch, BY_SEVEN), c).regs, dest) == 0 != (W32 - 1) / 7
  {
    hide RunOps, Div, Shifted;
    SevenSuits();
    NoShift(W32 - 1, 0);
    DivIs(dest, src, 7, scratch, BY_SEVEN, 7, 2, c);
  }

  lemma SevenSuits()
    ensures Suits(BY_SEVEN, 7, 7, 2) && !IsPow2(7)
  {
    Pow32();
    assert Pow2(33) == 2 * W32 && Pow2(34) == 4 * W32 && Pow2(0) == 1;
    assert TopBit(7) == 2 && Pow2(2) == 4;
  }

  lemma ZeroShifted(k: nat)
    ensures Shifted(0, k) == 0
  {
  }

  /** Register arithmetic that writes nothing outside `dests`. */
  predicate Writes(i: Instr, dests: set<Reg>) {
    match i
    case Move32(d, _) => d in dests
    case Move48(d, _) => Pair(d) <= dests
    case MoveReg32(d, _) => d in dests
    case AddImm32(d, _, _) => d in dests
    case Add64(d, _, _) => Pair(d) <= dests
    case LshiftImm64(d, _, _) => Pair(d) <= dests
    case RshiftImmU32(d, _, _) => d in dests
    case _ => false
  }

  lemma {:induction false} RunKeeps(ops: seq<Instr>, dests: set<Reg>, c: Core)
    requires forall k :: 0 <= k < |ops| ==> Writes(ops[k], dests)
    ensures var d := RunOps(ops, c);
            d.mem == c.mem && d.log == c.log && forall r :: r !in dests ==> Get(d.regs, r) == Get(c.regs, r)
  {
    if ops != [] {
      var n := |ops| - 1;
      RunKeeps(ops[..n], dests, c);
      OneKeeps(ops[n], dests, RunOps(ops[..n], c));
    }
  }

  lemma OneKeeps(i: Instr, dests: set<Reg>, c: Core)
    requires Writes(i, dests)
    ensures var d := ExecOp(i, c);
            d.mem == c.mem && d.log == c.log && forall r :: r !in dests ==> Get(d.regs, r) == Get(c.regs, r)
  {
    hide Get64;
  }

  lemma {:induction false} MulWrites(dest: Reg, src: Reg, imm: nat, first: bool, dests: set<Reg>)
    requires Pair(dest) <= dests
    ensures forall k :: 0 <= k < |MulFrom(dest, src, imm, first)| ==> Writes(MulFrom(dest, src, imm, first)[k], dests)
    decreases imm
  {
    if imm > 0 { MulWrites(dest, src, imm - Pow2(TopBit(imm)), false, dests); }
  }

  /** A division writes its destination and its scratch registers, and nothing else. */
  lemma DivKeeps(dest: Reg, src: Reg, imm: nat, scratch: Reg, info: UdivInfo, c: Core)
    requires imm > 0
    ensures var d := RunOps(Div(dest, src, imm, scratch, info), c);
            && d.mem == c.mem && d.log == c.log
            && forall r: Reg :: r != dest && !(scratch <= r < scratch + 4) ==> Get(d.regs, r) == Get(c.regs, r)
  {
    var dests := {dest, scratch, scratch + 1, scratch + 2, scratch + 3};
    MulWrites(scratch + 2, scratch, info.multiplier, true, dests);
    hide MulFrom, TopBit, Pow2;
    RunKeeps(Div(dest, src, imm, scratch, info), dests, c);
  }

  /** Division by a constant that is not 0. */
  method Udiv32(b: Builder, dest: Reg, src: Reg, imm: nat, scratch: Reg, info: UdivInfo,
                ghost before: seq<Instr>, ghost done: seq<Instr>, ghost g: Structured.Ctx)
    requires b.Outer() != null && 0 < imm < W32 && info.multiplier < W32 && info.increment <= 1
    requires Built(b, done, before, g)
    modifies b`instrs, b`stack, b.Closing(), b.cur
    ensures b.Outer() == old(b.Outer()) && b.Closing() == {}
    ensures Built(b, done + Div(dest, src, imm, scratch, info), before, g)
  {
    hide Built, Gen, Exec, GenCases, Mul, TopBit, Pow2, Patch, Chained, AllNear, Appended;
    if imm == Pow2(TopBit(imm)) {
      Emit1(b, RshiftImmU32(dest, src, TopBit(imm)), done, before, g);
      return;
    }
    ghost var ops := Scale(b, src, scratch, info, before, done, g);
    Umul64(b, scratch + 2, scratch, info.multiplier, before, ops, g);
    Emit1(b, RshiftImmU32(dest, scratch + 3, info.postShift), ops + Mul(scratch + 2, scratch, info.multiplier), before,
          g);
    assert ops + Mul(scratch + 2, scratch, info.multiplier) + [RshiftImmU32(dest, scratch + 3, info.postShift)]
        == done + Div(dest, src, imm, scratch, info);
  }

  method Scale(b: Builder, src: Reg, scratch: Reg, info: UdivInfo, ghost before: seq<Instr>, ghost done: seq<Instr>,
               ghost g: Structured.Ctx)
    returns (ghost ops: seq<Instr>)
    requires b.Outer() != null && Built(b, done, before, g)
    modifies b`instrs, b`stack, b.Closing(), b.cur
    ensures b.Outer() == old(b.Outer()) && b.Closing() == {}
    ensures ops == done + Scaled(src, scratch, info) && Built(b, ops, before, g)
  {
    hide Built, Gen, Exec, GenCases, Patch, Chained, AllNear, Appended;
    ops := done;
    if info.preShift != 0 {
      Emit1(b, RshiftImmU32(scratch, src, info.preShift), ops, before, g);
      ops := ops + [RshiftImmU32(scratch, src, info.preShift)];
    }
    if info.increment != 0 {
      var from := if info.preShift != 0 then scratch else src;
      Emit1(b, AddImm32(scratch, from, info.increment), ops, before, g);
      ops := ops + [AddImm32(scratch, from, info.increment)];
    }
    if info.preShift == 0 && !(info.increment != 0) {
      Emit1(b, MoveReg32(scratch, src), ops, before, g);
      ops := ops + [MoveReg32(scratch, src)];
    }
    Emit1(b, Move32(scratch + 1, 0), ops, before, g);
    ops := ops + [Move32(scratch + 1, 0)];
  }
}
