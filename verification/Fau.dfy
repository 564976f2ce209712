/** Packing the push uniforms (FAU): the used system values, the used push constants, and 32-bit immediates. */
module Fau {
  import opened Bits
  import opened Numbers

  const FAU_WORD_SIZE: nat := 8
  const SYSVALS_COMMON_START: nat := 2
  const SYSVALS_COMMON_END: nat := 4
  const HALF: nat := 0x1_0000_0000

  type Half = x: int | 0 <= x < 0x1_0000_0000

  datatype Immediate = None | Immediate(constant: Half)

  /** What the compiler has decided: which words are used, and the immediates by 32-bit word. */
  datatype Shader = Shader(usedSysvals: seq<bool>, usedPushConsts: seq<bool>, sysvalCount: nat, totalCount: nat,
                           immediates: seq<Immediate>)

  /** The values a command buffer provides; of the system values, two are common to all of them: the address
      of the push uniforms themselves, and that of the printf buffer. */
  datatype Values = Values(sysvals: seq<nat>, pushConsts: seq<nat>, printfBuffer: nat, gpu: nat)

  ghost predicate Fits(sh: Shader, v: Values) {
    && |v.sysvals| == |sh.usedSysvals| && |v.pushConsts| == |sh.usedPushConsts|
    && sh.sysvalCount == Count(sh.usedSysvals)
    && First(sh) <= sh.totalCount && |sh.immediates| <= 2 * sh.totalCount
    && forall i :: 0 <= i < |sh.immediates| && sh.immediates[i].Immediate? ==> First(sh) <= i / 2
  }

  /** The first word behind the packed values. */
  function First(sh: Shader): nat {
    Count(sh.usedSysvals) + Count(sh.usedPushConsts)
  }

  function Address(sh: Shader, v: Values, r: nat): nat {
    v.gpu + r * sh.totalCount * FAU_WORD_SIZE
  }

  /** System value `w`, for repeat `r`: the address of the uniforms is that of the repeat's own block. */
  function Sysval(sh: Shader, v: Values, r: nat, w: nat): nat
    requires w < |v.sysvals|
  {
    if SYSVALS_COMMON_START <= w < SYSVALS_COMMON_END then
      if w == SYSVALS_COMMON_START then Address(sh, v, r) else v.printfBuffer
    else v.sysvals[w]
  }

  /** A word with one of its halves replaced. */
  function WithHalf(word: nat, hi: bool, c: Half): nat {
    if hi then word % HALF + HALF * c else (word / HALF) * HALF + c
  }

  function HalfOf(word: nat, hi: bool): nat {
    if hi then word / HALF else word % HALF
  }

  // ----- Where the shader looks -----------------------------------------------------------------------

  /** shader_remapped_fau_offset: from the offset the shader was written with to that in the packed block. */
  function Remapped(used: seq<bool>, offset: nat): nat
    requires offset / FAU_WORD_SIZE <= |used|
  {
    FAU_WORD_SIZE * Rank(used, offset / FAU_WORD_SIZE) + offset % FAU_WORD_SIZE
  }

  function RemappedSysval(sh: Shader, offset: nat): nat
    requires offset / FAU_WORD_SIZE <= |sh.usedSysvals|
  {
    Remapped(sh.usedSysvals, offset)
  }

  function RemappedPushConst(sh: Shader, offset: nat): nat
    requires offset / FAU_WORD_SIZE <= |sh.usedPushConsts|
  {
    sh.sysvalCount * FAU_WORD_SIZE + Remapped(sh.usedPushConsts, offset)
  }

  // ----- The block ------------------------------------------------------------------------------------

  /** The values of the used words, in order, up to word `n`. */
  ghost predicate Packed(s: seq<nat>, base: nat, used: seq<bool>, n: nat, value: nat -> nat)
    requires n <= |used|
  {
    base + Rank(used, n) <= |s| && forall w :: 0 <= w < n && used[w] ==>
        && Rank(used, w) < Rank(used, n)
        && s[base + Rank(used, w)] == value(w)
  }

  /** Nothing outside `from..to` has changed. */
  ghost predicate Kept(s: seq<nat>, was: seq<nat>, from: nat, to: nat) {
    |s| == |was| && forall k :: 0 <= k < |s| && !(from <= k < to) ==> s[k] == was[k]
  }

  lemma PackedMore(s: seq<nat>, was: seq<nat>, base: nat, used: seq<bool>, n: nat, value: nat -> nat)
    requires n < |used| && Packed(was, base, used, n, value) && |s| == |was|
    requires forall k :: base <= k < base + Rank(used, n) ==> s[k] == was[k]
    requires used[n] ==> base + Rank(used, n) < |s| && s[base + Rank(used, n)] == value(n)
    ensures Packed(s, base, used, n + 1, value)
  {
    hide Rank;
    RankNext(used, n);
  }

  lemma PackedKept(s: seq<nat>, was: seq<nat>, base: nat, used: seq<bool>, value: nat -> nat, from: nat, to: nat)
    requires Packed(was, base, used, |used|, value) && Kept(s, was, from, to)
    requires base + Count(used) <= from || to <= base
    ensures Packed(s, base, used, |used|, value)
  {
    assert used[..|used|] == used;
  }

  /** Pack the used words of `values` from `base` on. */
  method Pack(faus: array<nat>, base: nat, used: seq<bool>, values: seq<nat>,
              ghost value: nat -> nat) returns (next: nat)
    requires |values| == |used| && base + Count(used) <= faus.Length
             && forall w :: 0 <= w < |used| ==> values[w] == value(w)
    modifies faus
    ensures next == base + Count(used) && Kept(faus[..], old(faus[..]), base, next)
    ensures Packed(faus[..], base, used, |used|, value)
  {
    next := base;
    assert used[..0] == [] && used[..|used|] == used;
    for w := 0 to |used|
      invariant next == base + Rank(used, w) && Kept(faus[..], old(faus[..]), base, next)
      invariant Packed(faus[..], base, used, w, value)
    {
      RankNext(used, w);
      RankGrows(used, w + 1, |used|);
      ghost var was := faus[..];
      if used[w] {
        faus[next] := values[w];
        next := next + 1;
      }
      PackedMore(faus[..], was, base, used, w, value);
    }
  }

  /** What the system values of a block are that starts at word `base`: the first of the two common ones is the
      address of the block itself. */
  ghost function SysvalIn(v: Values, base: nat, w: nat): nat {
    if w == SYSVALS_COMMON_START then v.gpu + FAU_WORD_SIZE * base
    else if w == SYSVALS_COMMON_START + 1 then v.printfBuffer
    else if w < |v.sysvals| then v.sysvals[w]
    else 0
  }

  ghost function SysvalsIn(v: Values, base: nat): nat -> nat {
    (w: nat) => SysvalIn(v, base, w)
  }

  /** The address a repeat is given is that of its block. */
  lemma OwnBlock(sh: Shader, v: Values, r: nat, w: nat)
    requires w < |v.sysvals|
    ensures Sysval(sh, v, r, w) == SysvalsIn(v, r * sh.totalCount)(w)
  {
    Associates(r, sh.totalCount, FAU_WORD_SIZE);
  }

  function PushConstsOf(v: Values): nat -> nat {
    (w: nat) => if w < |v.pushConsts| then v.pushConsts[w] else 0
  }

  lemma HalfReplaced(word: nat, hi: bool, c: Half)
    ensures HalfOf(WithHalf(word, hi, c), hi) == c && HalfOf(WithHalf(word, hi, c), !hi) == HalfOf(word, !hi)
  {
  }

  /** The half word `i` of the block at `base`. */
  function HalfAt(s: seq<nat>, base: nat, i: nat): nat
    requires base + i / 2 < |s|
  {
    HalfOf(s[base + i / 2], i % 2 == 1)
  }

  /** The first `n` immediates are in place, and no other half word of the block's `total` words has changed. */
  ghost predicate Immediates(s: seq<nat>, was: seq<nat>, base: nat, total: nat, imms: seq<Immediate>, n: nat)
    requires n <= |imms| <= 2 * total && base + total <= |s| == |was|
  {
    forall i :: 0 <= i < 2 * total ==> HalfAt(s, base, i) == if i < n && imms[i].Immediate? then imms[i].constant
        else HalfAt(was, base, i)
  }

  lemma ImmediateSet(s: seq<nat>, was: seq<nat>, base: nat, total: nat, imms: seq<Immediate>, n: nat)
    requires n < |imms| <= 2 * total && base + total <= |s| == |was| && Immediates(s, was, base, total, imms, n)
    requires imms[n].Immediate?
    ensures var idx := base + n / 2;
            Immediates(s[idx := WithHalf(s[idx], n % 2 == 1, imms[n].constant)], was, base, total, imms, n + 1)
  {
    hide WithHalf, HalfOf;
    var idx := base + n / 2;
    HalfReplaced(s[idx], n % 2 == 1, imms[n].constant);
    var now := s[idx := WithHalf(s[idx], n % 2 == 1, imms[n].constant)];
    forall i | 0 <= i < 2 * total
      ensures HalfAt(now, base, i) == if i < n + 1 && imms[i].Immediate? then imms[i].constant else HalfAt(was, base, i)
    {
      assert HalfAt(s, base, i) == if i < n && imms[i].Immediate? then imms[i].constant else HalfAt(was, base, i);
      assert i / 2 == n / 2 && i % 2 == n % 2 ==> i == n;
    }
  }

  method PatchImmediates(faus: array<nat>, base: nat, sh: Shader)
    requires base + sh.totalCount <= faus.Length && |sh.immediates| <= 2 * sh.totalCount
    requires forall i :: 0 <= i < |sh.immediates| && sh.immediates[i].Immediate? ==> First(sh) <= i / 2
    modifies faus
    ensures Kept(faus[..], old(faus[..]), base + First(sh), base + sh.totalCount)
    ensures Immediates(faus[..], old(faus[..]), base, sh.totalCount, sh.immediates, |sh.immediates|)
  {
    hide WithHalf, HalfOf, Immediates, First;
    NoneYet(faus[..], base, sh.totalCount, sh.immediates);
    for i := 0 to |sh.immediates|
      invariant Kept(faus[..], old(faus[..]), base + First(sh), base + sh.totalCount)
      invariant Immediates(faus[..], old(faus[..]), base, sh.totalCount, sh.immediates, i)
    {
      ghost var was := faus[..];
      match sh.immediates[i]
      case None => Skipped(was, old(faus[..]), base, sh.totalCount, sh.immediates, i);
      case Immediate(constant) =>
        ImmediateSet(was, old(faus[..]), base, sh.totalCount, sh.immediates, i);
        var idx := base + i / 2;
        faus[idx] := WithHalf(faus[idx], i % 2 == 1, constant);
        assert faus[..] == was[idx := faus[idx]];
    }
  }

  lemma NoneYet(s: seq<nat>, base: nat, total: nat, imms: seq<Immediate>)
    requires |imms| <= 2 * total && base + total <= |s|
    ensures Immediates(s, s, base, total, imms, 0)
  {
  }

  lemma Skipped(s: seq<nat>, was: seq<nat>, base: nat, total: nat, imms: seq<Immediate>, n: nat)
    requires n < |imms| <= 2 * total && base + total <= |s| == |was| && Immediates(s, was, base, total, imms, n)
    requires imms[n].None?
    ensures Immediates(s, was, base, total, imms, n + 1)
  {
  }

  /** A repeat's block, from word `base` on: system values first, push constants behind them, and then immediates. */
  ghost predicate Block(s: seq<nat>, base: nat, sh: Shader, v: Values) {
    && Packed(s, base, sh.usedSysvals, |sh.usedSysvals|, SysvalsIn(v, base))
    && Packed(s, base + sh.sysvalCount, sh.usedPushConsts, |sh.usedPushConsts|, PushConstsOf(v))
    && base + sh.totalCount <= |s| && |sh.immediates| <= 2 * sh.totalCount
    && forall i :: 0 <= i < |sh.immediates| && sh.immediates[i].Immediate? ==>
           HalfAt(s, base, i) == sh.immediates[i].constant
  }

  /** The half words behind the push constants that are no immediates are as they were. */
  ghost predicate RestKept(s: seq<nat>, was: seq<nat>, base: nat, sh: Shader) {
    && base + sh.totalCount <= |s| == |was|
    && forall i :: (0 <= i < 2 * sh.totalCount && First(sh) <= i / 2
                    && !(i < |sh.immediates| && sh.immediates[i].Immediate?)) ==>
           HalfAt(s, base, i) == HalfAt(was, base, i)
  }

  method PackBlock(faus: array<nat>, sh: Shader, v: Values, r: nat, base: nat)
    requires Fits(sh, v) && base + sh.totalCount <= faus.Length && base == r * sh.totalCount
    modifies faus
    ensures Kept(faus[..], old(faus[..]), base, base + sh.totalCount)
    ensures Block(faus[..], base, sh, v) && RestKept(faus[..], old(faus[..]), base, sh)
  {
    hide Packed, HalfOf, SysvalsIn, Sysval;
    forall w | 0 <= w < |v.sysvals| ensures Sysval(sh, v, r, w) == SysvalsIn(v, base)(w) { OwnBlock(sh, v, r, w); }
    var values := seq(|v.sysvals|, w requires 0 <= w < |v.sysvals| => Sysval(sh, v, r, w));
    var mid := Pack(faus, base, sh.usedSysvals, values, SysvalsIn(v, base));
    ghost var s1 := faus[..];
    var next := Pack(faus, mid, sh.usedPushConsts, v.pushConsts, PushConstsOf(v));
    ghost var s2 := faus[..];
    PatchImmediates(faus, base, sh);
    ghost var s3 := faus[..];
    PackedKept(s2, s1, base, sh.usedSysvals, SysvalsIn(v, base), mid, next);
    PackedKept(s3, s2, base, sh.usedSysvals, SysvalsIn(v, base), base + First(sh), base + sh.totalCount);
    PackedKept(s3, s2, mid, sh.usedPushConsts, PushConstsOf(v), base + First(sh), base + sh.totalCount);
  }

  lemma Next(r: nat, n: nat)
    ensures (r + 1) * n == r * n + n
  {
  }

  lemma Within(r: nat, repeats: nat, n: nat)
    requires r < repeats
    ensures (r + 1) * n <= repeats * n
  {
    assert (repeats - r - 1) * n >= 0;
    assert repeats * n == (r + 1) * n + (repeats - r - 1) * n;
  }

  /** A block is left alone by what is written behind it. */
  lemma BlockKept(s: seq<nat>, was: seq<nat>, sh: Shader, v: Values, base: nat, from: nat, to: nat)
    requires Fits(sh, v) && Block(was, base, sh, v) && Kept(s, was, from, to)
    requires base + sh.totalCount <= from
    ensures Block(s, base, sh, v)
  {
    hide HalfOf, Packed;
    PackedKept(s, was, base, sh.usedSysvals, SysvalsIn(v, base), from, to);
    PackedKept(s, was, base + sh.sysvalCount, sh.usedPushConsts, PushConstsOf(v), from, to);
  }

  lemma RestStays(s: seq<nat>, was: seq<nat>, first: seq<nat>, base: nat, sh: Shader, from: nat, to: nat)
    requires RestKept(was, first, base, sh) && Kept(s, was, from, to) && base + sh.totalCount <= from
    ensures RestKept(s, first, base, sh)
  {
    hide HalfOf, First;
  }

  lemma RestOfNext(s: seq<nat>, was: seq<nat>, first: seq<nat>, base: nat, sh: Shader)
    requires RestKept(s, was, base, sh) && Kept(was, first, 0, base)
    ensures RestKept(s, first, base, sh)
  {
    hide HalfOf, First;
  }

  /** Every repeat gets its own block; nothing else is written. */
  method PrepareUniforms(faus: array<nat>, sh: Shader, v: Values, repeats: nat)
    requires Fits(sh, v) && repeats * sh.totalCount <= faus.Length
    modifies faus
    ensures Kept(faus[..], old(faus[..]), 0, repeats * sh.totalCount)
    ensures forall r :: 0 <= r < repeats ==>
              Block(faus[..], r * sh.totalCount, sh, v) && RestKept(faus[..], old(faus[..]), r * sh.totalCount, sh)
  {
    hide Block, Fits, RestKept;
    ghost var first := faus[..];
    for r := 0 to repeats
      invariant Kept(faus[..], old(faus[..]), 0, r * sh.totalCount)
      invariant forall q :: 0 <= q < r ==>
                  Block(faus[..], q * sh.totalCount, sh, v) && RestKept(faus[..], first, q * sh.totalCount, sh)
    {
      Next(r, sh.totalCount);
      Within(r, repeats, sh.totalCount);
      ghost var was := faus[..];
      PackBlock(faus, sh, v, r, r * sh.totalCount);
      RestOfNext(faus[..], was, first, r * sh.totalCount, sh);
      forall q | 0 <= q < r
        ensures Block(faus[..], q * sh.totalCount, sh, v) && RestKept(faus[..], first, q * sh.totalCount, sh)
      {
        Within(q, r, sh.totalCount);
        Next(q, sh.totalCount);
        BlockKept(faus[..], was, sh, v, q * sh.totalCount, r * sh.totalCount, (r + 1) * sh.totalCount);
        RestStays(faus[..], was, first, q * sh.totalCount, sh, r * sh.totalCount, (r + 1) * sh.totalCount);
      }
    }
  }

  /** A byte of a word stays a byte of a word. */
  lemma RemappedByte(used: seq<bool>, w: nat, byte: nat)
    requires w <= |used| && byte < FAU_WORD_SIZE
    ensures (FAU_WORD_SIZE * w + byte) / FAU_WORD_SIZE == w
    ensures Remapped(used, FAU_WORD_SIZE * w + byte) == FAU_WORD_SIZE * Rank(used, w) + byte
  {
    hide Rank;
  }

  /** What the shader reads at a remapped offset of a system value is what it asked for, at the same byte: the address
      of the very block it reads for word 2, the printf buffer for word 3, the command buffer's value for others. */
  lemma SysvalRead(s: seq<nat>, base: nat, sh: Shader, v: Values, w: nat, byte: nat) returns (k: nat)
    requires Fits(sh, v) && Block(s, base, sh, v) && w < |sh.usedSysvals| && sh.usedSysvals[w]
    requires byte < FAU_WORD_SIZE
    ensures (FAU_WORD_SIZE * w + byte) / FAU_WORD_SIZE == w
    ensures RemappedSysval(sh, FAU_WORD_SIZE * w + byte) == FAU_WORD_SIZE * k + byte
    ensures k < sh.sysvalCount && base + k < |s|
    ensures s[base + k] == if w == 2 then v.gpu + 8 * base else if w == 3 then v.printfBuffer else v.sysvals[w]
  {
    RemappedByte(sh.usedSysvals, w, byte);
    hide Rank, Remapped, HalfOf;
    AllRanked(sh.usedSysvals);
    k := Rank(sh.usedSysvals, w);
    assert s[base + k] == SysvalsIn(v, base)(w);
  }

  /** So it is for push constants, which come behind all system values. */
  lemma PushConstRead(s: seq<nat>, base: nat, sh: Shader, v: Values, w: nat, byte: nat) returns (k: nat)
    requires Fits(sh, v) && Block(s, base, sh, v) && w < |sh.usedPushConsts| && sh.usedPushConsts[w]
    requires byte < FAU_WORD_SIZE
    ensures (FAU_WORD_SIZE * w + byte) / FAU_WORD_SIZE == w
    ensures RemappedPushConst(sh, FAU_WORD_SIZE * w + byte) == FAU_WORD_SIZE * k + byte
    ensures sh.sysvalCount <= k < First(sh) && base + k < |s| && s[base + k] == v.pushConsts[w]
  {
    RemappedByte(sh.usedPushConsts, w, byte);
    hide Rank, Remapped, HalfOf;
    AllRanked(sh.usedPushConsts);
    k := sh.sysvalCount + Rank(sh.usedPushConsts, w);
    assert s[base + sh.sysvalCount + Rank(sh.usedPushConsts, w)] == PushConstsOf(v)(w);
  }

  lemma AllRanked(used: seq<bool>)
    ensures Rank(used, |used|) == Count(used)
  {
    assert used[..|used|] == used;
  }

  /** Different used words are never packed into the same place. */
  lemma RankIsInjective(used: seq<bool>, i: nat, j: nat)
    requires i < j < |used| && used[i]
    ensures Rank(used, i) < Rank(used, j)
  {
    hide Rank;
    RankNext(used, i);
    RankGrows(used, i + 1, j);
  }
}
