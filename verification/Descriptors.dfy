/** Descriptor set layouts: where each descriptor of a set goes, and how many a set may have. */
module Descriptors {
  import opened Numbers

  const DESCRIPTOR_SIZE: nat := 32
  const MAX_DESCS_PER_SET: nat := 0x100_0000
  const MAX_INLINE_UNIFORM_BLOCK_SIZE: nat := 0x1_0000
  const MAX_DYNAMIC_BUFFERS: nat := 24

  datatype Kind = Sampler | CombinedImageSampler | SampledImage | StorageImage | UniformTexelBuffer | StorageTexelBuffer
                | UniformBuffer | StorageBuffer | UniformBufferDynamic | StorageBufferDynamic | InputAttachment
                | InlineUniformBlock | Mutable

  /** An immutable sampler; with a YCbCr conversion it needs several planes. */
  datatype SamplerInfo = SamplerInfo(ycbcr: bool, texCount: nat, descCount: nat)

  /** A binding as the application describes it; without immutable samplers the list is empty. `listed` says
      that the types a mutable binding may take are supported. */
  datatype Binding = Binding(number: nat, kind: Kind, count: nat, samplers: seq<SamplerInfo>, variable: bool,
                             listed: bool)

  predicate IsTexture(k: Kind) {
    k.SampledImage? || k.StorageImage? || k.InputAttachment? || k.CombinedImageSampler? || k.Mutable?
  }

  predicate IsSampler(k: Kind) {
    k.Sampler? || k.CombinedImageSampler? || k.Mutable?
  }

  predicate IsDynamic(k: Kind) {
    k.UniformBufferDynamic? || k.StorageBufferDynamic?
  }

  function Max(a: nat, b: nat): nat {
    if a > b then a else b
  }

  /** The most texture planes any of the samplers with a conversion needs, and no fewer than `least`. */
  function TexPlanes(samplers: seq<SamplerInfo>, least: nat): (r: nat)
    ensures r >= least && forall i :: 0 <= i < |samplers| && samplers[i].ycbcr ==> r >= samplers[i].texCount
    ensures r == least || exists i :: 0 <= i < |samplers| && samplers[i].ycbcr && samplers[i].texCount == r
  {
    if samplers == [] then least
    else
      var s := samplers[|samplers| - 1];
      var r := TexPlanes(samplers[..|samplers| - 1], least);
      if s.ycbcr then Max(s.texCount, r) else r
  }

  /** So for the planes of the samplers themselves. */
  function SamplerPlanes(samplers: seq<SamplerInfo>, least: nat): (r: nat)
    ensures r >= least && forall i :: 0 <= i < |samplers| && samplers[i].ycbcr ==> r >= samplers[i].descCount
    ensures r == least || exists i :: 0 <= i < |samplers| && samplers[i].ycbcr && samplers[i].descCount == r
  {
    if samplers == [] then least
    else
      var s := samplers[|samplers| - 1];
      var r := SamplerPlanes(samplers[..|samplers| - 1], least);
      if s.ycbcr then Max(s.descCount, r) else r
  }

  function Textures(b: Binding): nat {
    TexPlanes(if IsSampler(b.kind) then b.samplers else [], if IsTexture(b.kind) then 1 else 0)
  }

  function Samplers(b: Binding): nat {
    SamplerPlanes(if IsSampler(b.kind) then b.samplers else [], if IsSampler(b.kind) then 1 else 0)
  }

  /** An inline uniform block: one descriptor for the buffer, and as many as the bytes fill. */
  function IubDescCount(bytes: nat): nat {
    (bytes + DESCRIPTOR_SIZE - 1) / DESCRIPTOR_SIZE + 1
  }

  function IubSize(descs: nat): nat
    requires descs >= 1
  {
    (descs - 1) * DESCRIPTOR_SIZE
  }

  /** The descriptors are enough for the bytes, and no fewer would be. */
  lemma IubExact(bytes: nat, descs: nat)
    requires descs >= 1
    ensures bytes <= IubSize(descs) <==> IubDescCount(bytes) <= descs
  {
  }

  function DescCount(b: Binding): nat {
    if b.kind.InlineUniformBlock? then IubDescCount(b.count) else b.count
  }

  // ----- The layout -----------------------------------------------------------------------------------

  datatype BindingLayout = BindingLayout(kind: Kind, variable: bool, descCount: nat, descIdx: nat, textures: nat,
                                         samplers: nat)

  const UNSET := BindingLayout(Sampler, false, 0, 0, 0, 0)

  datatype Layout = Layout(descCount: nat, dynBufCount: nat, bindings: seq<BindingLayout>)

  function Stride(l: BindingLayout): nat {
    if l.kind.CombinedImageSampler? then l.textures + l.samplers else 1
  }

  /** A part of a descriptor: the whole, or one plane of the texture or sampler of a combined one. */
  datatype Part = Whole | Texture(plane: nat) | SamplerPart(plane: nat)

  function Min(a: int, b: int): int {
    if a < b then a else b
  }

  function PartIndex(l: BindingLayout, p: Part): int {
    match p
    case Whole => 0
    case SamplerPart(plane) => l.textures + Min(plane, l.samplers - 1)
    case Texture(plane) => Min(plane, l.textures - 1)
  }

  function DescIndex(l: BindingLayout, elem: nat, p: Part): int {
    l.descIdx + elem * Stride(l) + PartIndex(l, p)
  }

  /** The binding's own entry, when what comes before it takes `descs` descriptors and `dyns` dynamic buffers. */
  function Entry(b: Binding, descs: nat, dyns: nat): BindingLayout {
    BindingLayout(b.kind, b.variable, DescCount(b), if IsDynamic(b.kind) then dyns else descs, Textures(b), Samplers(b))
  }

  function Size(b: Binding): nat {
    if b.count == 0 || IsDynamic(b.kind) then 0 else Stride(Entry(b, 0, 0)) * DescCount(b)
  }

  function DynSize(b: Binding): nat {
    if IsDynamic(b.kind) then DescCount(b) else 0
  }

  function Sum(f: Binding -> nat, s: seq<Binding>): nat {
    if s == [] then 0 else Sum(f, s[..|s| - 1]) + f(s[|s| - 1])
  }

  predicate Sorted(s: seq<Binding>) {
    forall i, j :: 0 <= i < j < |s| ==> s[i].number < s[j].number
  }

  /** The entries of the first `n` bindings; each starts where those before it end. */
  ghost predicate LaidOut(s: seq<Binding>, n: nat, bindings: seq<BindingLayout>)
    requires n <= |s|
  {
    && (forall i :: 0 <= i < n ==> s[i].number < |bindings|)
    && (forall i :: 0 <= i < n && s[i].count > 0 ==> bindings[s[i].number] == EntryOf(s, i))
    && forall k :: 0 <= k < |bindings| && !Describes(s, n, k) ==> bindings[k] == UNSET
  }

  function EntryOf(s: seq<Binding>, i: nat): BindingLayout
    requires i < |s|
  {
    Entry(s[i], Sum(Size, s[..i]), Sum(DynSize, s[..i]))
  }

  /** One of the first `n` bindings has number `k`, and is not empty. */
  ghost predicate Describes(s: seq<Binding>, n: nat, k: nat)
    requires n <= |s|
  {
    exists i :: 0 <= i < n && s[i].number == k && s[i].count > 0
  }

  ghost predicate IsLayout(s: seq<Binding>, l: Layout) {
    && LaidOut(s, |s|, l.bindings) && |l.bindings| == (if s == [] then 0 else s[|s| - 1].number + 1)
    && l.descCount == Sum(Size, s) && l.dynBufCount == Sum(DynSize, s)
  }

  lemma LaidOutNext(s: seq<Binding>, n: nat, bindings: seq<BindingLayout>)
    requires n < |s| && Sorted(s) && s[n].number < |bindings| && LaidOut(s, n, bindings)
    ensures LaidOut(s, n + 1, if s[n].count == 0 then bindings else bindings[s[n].number := EntryOf(s, n)])
  {
    hide EntryOf;
    var now := if s[n].count == 0 then bindings else bindings[s[n].number := EntryOf(s, n)];
    forall k: nat ensures Describes(s, n, k) || (k == s[n].number && s[n].count > 0) ==>
            Describes(s, n + 1, k) { DescribesMore(s, n, k); }
    forall k | 0 <= k < |now| && !Describes(s, n + 1, k) ensures now[k] == UNSET {
      assert !Describes(s, n, k) && now[k] == bindings[k];
    }
  }

  lemma DescribesMore(s: seq<Binding>, n: nat, k: nat)
    requires n < |s|
    ensures Describes(s, n, k) || (k == s[n].number && s[n].count > 0) ==> Describes(s, n + 1, k)
  {
    if Describes(s, n, k) {
      var i :| 0 <= i < n && s[i].number == k && s[i].count > 0;
      assert 0 <= i < n + 1;
    }
  }

  lemma SumNext(f: Binding -> nat, s: seq<Binding>, i: nat)
    requires i < |s|
    ensures Sum(f, s[..i + 1]) == Sum(f, s[..i]) + f(s[i])
  {
    assert s[..i + 1][..i] == s[..i];
  }

  lemma EntryUnfolds(s: seq<Binding>, i: nat)
    requires i < |s|
    ensures EntryOf(s, i) == Entry(s[i], Sum(Size, s[..i]), Sum(DynSize, s[..i]))
  {
  }

  /** Slots are handed out in the order of the binding numbers. */
  method CreateLayout(s: seq<Binding>) returns (l: Layout)
    requires Sorted(s)
    ensures IsLayout(s, l)
  {
    var count := if s == [] then 0 else s[|s| - 1].number + 1;
    var bindings := seq(count, _ => UNSET);
    var descIdx, dynBufIdx := 0, 0;
    assert s[..0] == [];
    hide LaidOut, Sum, Entry, EntryOf, Size, DynSize, Stride;
    for i := 0 to |s|
      invariant |bindings| == count && descIdx == Sum(Size, s[..i]) && dynBufIdx == Sum(DynSize, s[..i])
      invariant LaidOut(s, i, bindings)
    {
      var b := s[i];
      SumNext(Size, s, i);
      SumNext(DynSize, s, i);
      LaidOutNext(s, i, bindings);
      EntryUnfolds(s, i);
      EntrySize(b, descIdx, dynBufIdx);
      if b.count != 0 {
        var entry := Entry(b, descIdx, dynBufIdx);
        bindings := bindings[b.number := entry];
        if IsDynamic(b.kind) {
          dynBufIdx := dynBufIdx + entry.descCount;
        } else {
          descIdx := descIdx + Stride(entry) * entry.descCount;
        }
      }
    }
    assert s[..|s|] == s;
    l := Layout(descIdx, dynBufIdx, bindings);
  }

  lemma EntrySize(b: Binding, descs: nat, dyns: nat)
    ensures var e := Entry(b, descs, dyns);
            && e.kind == b.kind && Size(b) == (if b.count == 0 || IsDynamic(b.kind) then 0 else Stride(e) * e.descCount)
            && DynSize(b) == if IsDynamic(b.kind) then e.descCount else 0
    ensures b.count == 0 ==> DynSize(b) == 0
  {
  }

  // ----- No two descriptors share a slot --------------------------------------------------------------

  /** The planes element `elem` of a binding has: those of its immutable sampler when that one has a conversion,
      else one. */
  function TexturesAt(b: Binding, elem: nat): nat {
    if elem < |b.samplers| && b.samplers[elem].ycbcr then b.samplers[elem].texCount else 1
  }

  function SamplersAt(b: Binding, elem: nat): nat {
    if elem < |b.samplers| && b.samplers[elem].ycbcr then b.samplers[elem].descCount else 1
  }

  /** What the application's binding has descriptors for: its elements, whole, or every plane of the texture and of
      the sampler of a combined one. */
  predicate Has(b: Binding, elem: nat, p: Part) {
    && elem < DescCount(b)
    && match p
       case Whole => !b.kind.CombinedImageSampler?
       case Texture(plane) => b.kind.CombinedImageSampler? && plane < TexturesAt(b, elem)
       case SamplerPart(plane) => b.kind.CombinedImageSampler? && plane < SamplersAt(b, elem)
  }

  /** The layout has room for all of it. */
  lemma HasPart(b: Binding, descs: nat, dyns: nat, elem: nat, p: Part)
    requires Has(b, elem, p)
    ensures IsPart(Entry(b, descs, dyns), elem, p)
  {
  }

  /** A descriptor of a laid out binding: an element, whole or a plane of it. */
  predicate IsPart(l: BindingLayout, elem: nat, p: Part) {
    && elem < l.descCount
    && if l.kind.CombinedImageSampler? then !p.Whole? && p.plane < (if p.Texture? then l.textures else l.samplers)
       else p.Whole?
  }

  lemma PartInStride(l: BindingLayout, elem: nat, p: Part)
    requires IsPart(l, elem, p)
    ensures 0 <= PartIndex(l, p) < Stride(l)
  {
  }

  lemma PartsDiffer(l: BindingLayout, elem: nat, p: Part, q: Part)
    requires IsPart(l, elem, p) && IsPart(l, elem, q) && PartIndex(l, p) == PartIndex(l, q)
    ensures p == q
  {
  }

  /** The planes of the texture come first, in order, and those of the sampler behind all of them. A plane past the
      last one stands for the last one. */
  lemma PartOrder(l: BindingLayout, plane: nat, next: nat)
    requires l.kind.CombinedImageSampler? && l.textures > 0 && l.samplers > 0
    ensures plane < l.textures ==> PartIndex(l, Texture(plane)) == plane
    ensures plane >= l.textures ==> PartIndex(l, Texture(plane)) == PartIndex(l, Texture(l.textures - 1))
    ensures plane < l.samplers ==> PartIndex(l, SamplerPart(plane)) == l.textures + plane
    ensures plane >= l.samplers ==> PartIndex(l, SamplerPart(plane)) == PartIndex(l, SamplerPart(l.samplers - 1))
    ensures 0 <= PartIndex(l, Texture(plane)) < PartIndex(l, SamplerPart(next)) < Stride(l)
  {
  }

  /** The index lies in the range of the binding. */
  lemma InBinding(l: BindingLayout, elem: nat, p: Part)
    requires IsPart(l, elem, p)
    ensures l.descIdx <= DescIndex(l, elem, p) < l.descIdx + Stride(l) * l.descCount
  {
    hide Stride, PartIndex;
    PartInStride(l, elem, p);
    MulGrows(elem + 1, l.descCount, Stride(l));
    assert (elem + 1) * Stride(l) == elem * Stride(l) + Stride(l);
    MulGrows(0, elem, Stride(l));
  }

  lemma SameBinding(l: BindingLayout, d: nat, p: Part, e: nat, q: Part)
    requires IsPart(l, d, p) && IsPart(l, e, q) && DescIndex(l, d, p) == DescIndex(l, e, q)
    ensures d == e && p == q
  {
    hide Stride, PartIndex;
    PartInStride(l, d, p);
    PartInStride(l, e, q);
    var n := d * Stride(l) + PartIndex(l, p);
    MulGrows(0, d, Stride(l));
    Quotient(n, Stride(l), d, PartIndex(l, p));
    Quotient(n, Stride(l), e, PartIndex(l, q));
    PartsDiffer(l, d, p, q);
  }

  lemma {:induction false} SumGrows(f: Binding -> nat, s: seq<Binding>, i: nat, j: nat)
    requires i <= j <= |s|
    ensures Sum(f, s[..i]) <= Sum(f, s[..j])
    decreases j
  {
    if i < j {
      SumNext(f, s, j - 1);
      SumGrows(f, s, i, j - 1);
    }
  }

  /** A binding that is not dynamic has the descriptors from where it starts to where the next one does. */
  lemma BindingRange(s: seq<Binding>, i: nat)
    requires i < |s| && s[i].count > 0
    ensures var e := EntryOf(s, i);
            && (!IsDynamic(s[i].kind) ==>
                && e.descIdx == Sum(Size, s[..i])
                && e.descIdx + Stride(e) * e.descCount == Sum(Size, s[..i + 1]) <= Sum(Size, s))
            && (IsDynamic(s[i].kind) ==>
                && e.descIdx == Sum(DynSize, s[..i])
                && e.descIdx + e.descCount == Sum(DynSize, s[..i + 1]) <= Sum(DynSize, s))
  {
    hide Sum, Size, DynSize, Stride;
    SumNext(Size, s, i);
    SumNext(DynSize, s, i);
    EntrySize(s[i], Sum(Size, s[..i]), Sum(DynSize, s[..i]));
    SumGrows(Size, s, i + 1, |s|);
    SumGrows(DynSize, s, i + 1, |s|);
    assert s[..|s|] == s;
  }

  /** All the descriptors the application's bindings have, every plane of every immutable sampler among them, have
      slots of the set, and different ones have different slots. */
  lemma SlotsAreDistinct(s: seq<Binding>, l: Layout, i: nat, d: nat, p: Part, j: nat, e: nat, q: Part)
    requires Sorted(s) && IsLayout(s, l) && i < |s| && j < |s| && s[i].count > 0 && s[j].count > 0
    requires s[i].kind !in {UniformBufferDynamic, StorageBufferDynamic}
    requires s[j].kind !in {UniformBufferDynamic, StorageBufferDynamic}
    requires Has(s[i], d, p) && Has(s[j], e, q)
    ensures var a, b := l.bindings[s[i].number], l.bindings[s[j].number];
            && 0 <= DescIndex(a, d, p) < l.descCount
            && (DescIndex(a, d, p) == DescIndex(b, e, q) ==> i == j && d == e && p == q)
  {
    hide Sum, Stride, PartIndex, DescIndex, EntryOf, Has, IsPart;
    var a, b := l.bindings[s[i].number], l.bindings[s[j].number];
    EntryUnfolds(s, i);
    EntryUnfolds(s, j);
    HasPart(s[i], Sum(Size, s[..i]), Sum(DynSize, s[..i]), d, p);
    HasPart(s[j], Sum(Size, s[..j]), Sum(DynSize, s[..j]), e, q);
    BindingRange(s, i);
    BindingRange(s, j);
    InBinding(a, d, p);
    InBinding(b, e, q);
    if i < j { SumGrows(Size, s, i + 1, j); }
    if j < i { SumGrows(Size, s, j + 1, i); }
    if i == j && DescIndex(a, d, p) == DescIndex(b, e, q) { SameBinding(a, d, p, e, q); }
  }

  lemma EntryKind(s: seq<Binding>, n: nat)
    requires n < |s|
    ensures var e := EntryOf(s, n); e.kind == s[n].kind && e.variable == s[n].variable && e.descCount == DescCount(s[n])
  {
  }

  /** So it is for dynamic buffers. */
  lemma DynamicSlotsAreDistinct(s: seq<Binding>, l: Layout, i: nat, d: nat, j: nat, e: nat)
    requires Sorted(s) && IsLayout(s, l) && i < |s| && j < |s| && s[i].count > 0 && s[j].count > 0
    requires s[i].kind in {UniformBufferDynamic, StorageBufferDynamic}
    requires s[j].kind in {UniformBufferDynamic, StorageBufferDynamic}
    requires d < s[i].count && e < s[j].count
    ensures var a, b := l.bindings[s[i].number].descIdx + d, l.bindings[s[j].number].descIdx + e;
            a < l.dynBufCount && (a == b ==> i == j && d == e)
  {
    hide Sum, Stride, EntryOf;
    EntryKind(s, i);
    EntryKind(s, j);
    BindingRange(s, i);
    BindingRange(s, j);
    if i < j { SumGrows(DynSize, s, i + 1, j); }
    if j < i { SumGrows(DynSize, s, j + 1, i); }
  }

  // ----- The support query and what an allocation asks for ------------------------------------------------

  /** The descriptor count the query assumes of a binding: an empty one of variable size is treated as if it
      had four bytes or one descriptor. */
  function AskedCount(b: Binding): nat {
    if b.variable && b.count == 0 then (if b.kind.InlineUniformBlock? then 4 else 1) else b.count
  }

  function BindingStride(b: Binding): nat {
    Stride(Entry(b, 0, 0))
  }

  function Asked(b: Binding): nat {
    if IsDynamic(b.kind) then 0
    else if b.kind.InlineUniformBlock? then IubDescCount(AskedCount(b))
    else BindingStride(b) * AskedCount(b)
  }

  function AskedFixed(b: Binding): nat {
    if b.variable then 0 else Asked(b)
  }

  function AskedDynamic(b: Binding): nat {
    if IsDynamic(b.kind) then b.count else 0
  }

  predicate Unlisted(b: Binding) {
    b.kind.Mutable? && !b.listed
  }

  /** What the query assumes of a binding is what a layout makes room for: that of the binding itself, and of one of
      variable size without a count, that of four bytes or of one descriptor. Only an empty inline uniform block of
      fixed size is counted with the one descriptor for its buffer, though a layout leaves it out. */
  lemma AskedIs(b: Binding)
    ensures b.count > 0 ==> Asked(b) == Size(b)
    ensures b.count == 0 && b.variable ==> Asked(b) == Size(b.(count := if b.kind.InlineUniformBlock? then 4 else 1))
    ensures b.count == 0 && !b.variable ==> Asked(b) == (if b.kind.InlineUniformBlock? then 1 else 0) && Size(b) == 0
  {
  }

  /** What a binding of variable size takes when it is given the size `v`. */
  function VariableCost(b: Binding, v: nat): nat {
    if b.kind.InlineUniformBlock? then IubDescCount(v) else BindingStride(b) * v
  }

  /** A binding of variable size may be given any size up to `m` next to `fixed` other descriptors, and none above. */
  ghost predicate IsLargest(b: Binding, fixed: nat, m: int) {
    forall v: nat :: v <= m <==> (fixed + VariableCost(b, v) <= MAX_DESCS_PER_SET
                                  && (b.kind.InlineUniformBlock? ==> v <= MAX_INLINE_UNIFORM_BLOCK_SIZE))
  }

  lemma MaxVariableIs(b: Binding, fixed: nat)
    requires fixed < MAX_DESCS_PER_SET
    ensures IsLargest(b, fixed, MaxVariable(b, fixed))
  {
    hide IubDescCount, IubSize, BindingStride;
    var room := MAX_DESCS_PER_SET - fixed;
    StrideIsPositive(b);
    forall v: nat ensures (v <= IubSize(room) <==> IubDescCount(v) <= room)
        && (v <= room / BindingStride(b) <==> BindingStride(b) * v <= room)
    {
      IubExact(v, room);
      StrideFits(v, BindingStride(b), room);
    }
  }

  /** The largest count a binding of variable size may be given next to `fixed` other descriptors. */
  function MaxVariable(b: Binding, fixed: nat): int {
    if b.kind.InlineUniformBlock? then Min(if fixed < MAX_DESCS_PER_SET then IubSize(MAX_DESCS_PER_SET - fixed)
                                           else 0, MAX_INLINE_UNIFORM_BLOCK_SIZE)
    else if BindingStride(b) > 0 then (MAX_DESCS_PER_SET - fixed) / BindingStride(b)
    else 0
  }

  predicate Resizable(b: Binding) {
    b.variable && !IsDynamic(b.kind)
  }

  /** At most one binding has a variable size. */
  predicate OneResizable(s: seq<Binding>) {
    forall i, j :: 0 <= i < j < |s| ==> !(Resizable(s[i]) && Resizable(s[j]))
  }

  lemma StrideIsPositive(b: Binding)
    ensures BindingStride(b) > 0
  {
  }

  /** The query has counted at least one descriptor for the binding of variable size. */
  lemma RoomIsLeft(s: seq<Binding>, i: nat)
    requires i < |s| && Resizable(s[i])
    ensures Sum(AskedFixed, s) < Sum(Asked, s)
  {
    hide Sum;
    SumWithout(Asked, s, i);
    SumWithout(AskedFixed, s, i);
    forall b: Binding ensures AskedFixed(b) <= Asked(b) { SizeIsAsked(b); }
    SumBelow(AskedFixed, Asked, s[..i] + s[i + 1..]);
    AskedSome(s[i]);
  }

  lemma AskedSome(b: Binding)
    requires Resizable(b)
    ensures AskedFixed(b) == 0 < Asked(b)
  {
    StrideIsPositive(b);
    hide BindingStride;
    MulGrows(1, AskedCount(b), BindingStride(b));
  }

  /** Is the layout supported, and how large may its binding of variable size be? */
  method LayoutSupport(s: seq<Binding>) returns (supported: bool, maxVariable: int)
    requires OneResizable(s)
    ensures supported <==>
             && (forall i :: 0 <= i < |s| ==> !Unlisted(s[i])) && Sum(Asked, s) <= MAX_DESCS_PER_SET
             && Sum(AskedDynamic, s) <= MAX_DYNAMIC_BUFFERS
    ensures supported ==> (forall i :: 0 <= i < |s| && Resizable(s[i]) ==>
                               IsLargest(s[i], Sum(AskedFixed, s), maxVariable))
    ensures supported && (forall i :: 0 <= i < |s| ==> !Resizable(s[i])) ==> maxVariable == 0
  {
    var descCount, dynBufCount, fixedCount := 0, 0, 0;
    var found: int := -1;
    assert s[..0] == [];
    hide Sum, Asked, AskedFixed, AskedDynamic, MaxVariable, IsLargest;
    supported, maxVariable := false, 0;
    for i := 0 to |s|
      invariant descCount == Sum(Asked, s[..i]) && dynBufCount == Sum(AskedDynamic, s[..i])
      invariant fixedCount == Sum(AskedFixed, s[..i])
      invariant forall k :: 0 <= k < i ==> !Unlisted(s[k])
      invariant -1 <= found < i && (found >= 0 ==> Resizable(s[found]))
      invariant forall k :: 0 <= k < i && Resizable(s[k]) ==> k == found
    {
      var b := s[i];
      SumNext(Asked, s, i);
      SumNext(AskedFixed, s, i);
      SumNext(AskedDynamic, s, i);
      AskedParts(b);
      if IsDynamic(b.kind) {
        dynBufCount := dynBufCount + b.count;
        continue;
      }
      if b.kind.Mutable? && !b.listed {
        return;
      }
      var count := if b.kind.InlineUniformBlock? then IubDescCount(AskedCount(b)) else BindingStride(b) * AskedCount(b);
      if b.variable {
        found := i;
      }
      descCount := descCount + count;
      if !b.variable {
        fixedCount := fixedCount + count;
      }
    }
    assert s[..|s|] == s;
    if descCount > MAX_DESCS_PER_SET || dynBufCount > MAX_DYNAMIC_BUFFERS {
      return;
    }
    supported := true;
    if found >= 0 {
      RoomIsLeft(s, found);
      MaxVariableIs(s[found], fixedCount);
      maxVariable := MaxVariable(s[found], fixedCount);
    }
  }

  lemma AskedParts(b: Binding)
    ensures Asked(b) == if IsDynamic(b.kind) then 0
                        else if b.kind.InlineUniformBlock? then IubDescCount(AskedCount(b))
                            else BindingStride(b) * AskedCount(b)
    ensures AskedFixed(b) == (if b.variable then 0 else Asked(b))
    ensures AskedDynamic(b) == if IsDynamic(b.kind) then b.count else 0
    ensures IsDynamic(b.kind) ==> !Unlisted(b)
  {
  }

  /** How many descriptors a set with this layout gets when it is allocated. */
  function AllocCount(l: Layout, variableCount: nat): int {
    if l.bindings == [] then l.descCount
    else
      var last := l.bindings[|l.bindings| - 1];
      if !last.variable || IsDynamic(last.kind) then l.descCount
      else if last.kind.InlineUniformBlock? then l.descCount - last.descCount + IubDescCount(variableCount)
      else l.descCount - last.descCount * Stride(last) + variableCount * Stride(last)
  }

  /** An allocated set has exactly as many descriptors as a layout in which the binding of variable size has the
      count the set was allocated with; without such a binding, as many as its own layout. */
  lemma AllocIs(s: seq<Binding>, l: Layout, v: nat)
    requires Sorted(s) && IsLayout(s, l)
    ensures s == [] || s[|s| - 1].count == 0 || !Resizable(s[|s| - 1]) ==> AllocCount(l, v) == Sum(Size, s)
    ensures s != [] && s[|s| - 1].count > 0 && Resizable(s[|s| - 1]) ==>
              var last := s[|s| - 1];
              AllocCount(l, v) == if v == 0 && !last.kind.InlineUniformBlock? then Sum(Size, s[..|s| - 1])
              else if v == 0 then Sum(Size, s[..|s| - 1]) + 1
              else Sum(Size, s[|s| - 1 := last.(count := v)])
  {
    hide Sum, Size, EntryOf, Stride, IubDescCount, LaidOut;
    if s != [] {
      var n := |s| - 1;
      LastEntry(s, l);
      EntryKind(s, n);
      if s[n].count > 0 && Resizable(s[n]) {
        EntryIs(s, l);
        CostIs(s[n], v);
        var t := s[n := s[n].(count := v)];
        SumNext(Size, t, n);
        assert t[..n] == s[..n] && t[..n + 1] == t;
      }
    }
  }

  lemma CostIs(b: Binding, v: nat)
    requires Resizable(b)
    ensures VariableCost(b, v) == if v == 0 then (if b.kind.InlineUniformBlock? then 1 else 0)
                                  else Size(b.(count := v))
  {
  }

  lemma {:induction false} SumConcat(f: Binding -> nat, a: seq<Binding>, b: seq<Binding>)
    ensures Sum(f, a + b) == Sum(f, a) + Sum(f, b)
    decreases |b|
  {
    if b == [] {
      assert a + b == a;
    } else {
      assert (a + b)[..|a + b| - 1] == a + b[..|b| - 1];
      SumConcat(f, a, b[..|b| - 1]);
    }
  }

  /** The query adds up the bindings as they come, the layout in the order of their numbers: the sums agree. */
  lemma {:induction false} SumPermuted(f: Binding -> nat, a: seq<Binding>, b: seq<Binding>)
    requires multiset(a) == multiset(b)
    ensures Sum(f, a) == Sum(f, b)
    decreases |a|
  {
    hide Sum;
    if a == [] {
      assert |b| == |multiset(b)| == |multiset(a)| == 0;
    } else {
      var n := |a| - 1;
      var x := a[n];
      assert x in multiset(b);
      var k :| 0 <= k < |b| && b[k] == x;
      WithoutOne(a, n);
      WithoutOne(b, k);
      SumWithout(f, a, n);
      SumWithout(f, b, k);
      SumPermuted(f, a[..n] + a[n + 1..], b[..k] + b[k + 1..]);
    }
  }

  lemma SumOne(f: Binding -> nat, b: Binding)
    ensures Sum(f, [b]) == f(b)
  {
    assert [b][..0] == [];
  }

  lemma SumWithout(f: Binding -> nat, s: seq<Binding>, k: nat)
    requires k < |s|
    ensures Sum(f, s) == Sum(f, s[..k] + s[k + 1..]) + f(s[k])
  {
    hide Sum;
    var a, z := s[..k], s[k + 1..];
    assert s == a + ([s[k]] + z);
    SumConcat(f, a, [s[k]] + z);
    SumConcat(f, a, z);
    SumConcat(f, [s[k]], z);
    SumOne(f, s[k]);
  }

  lemma WithoutOne(s: seq<Binding>, k: nat)
    requires k < |s|
    ensures multiset(s[..k] + s[k + 1..]) == multiset(s) - multiset{s[k]}
  {
    assert s == s[..k] + [s[k]] + s[k + 1..];
  }

  lemma {:induction false} SumBelow(f: Binding -> nat, g: Binding -> nat, s: seq<Binding>)
    requires forall i :: 0 <= i < |s| ==> f(s[i]) <= g(s[i])
    ensures Sum(f, s) <= Sum(g, s)
  {
    if s != [] { SumBelow(f, g, s[..|s| - 1]); }
  }

  lemma SizeIsAsked(b: Binding)
    ensures Size(b) <= Asked(b) && AskedFixed(b) <= Asked(b) && (!b.variable ==> Size(b) <= AskedFixed(b))
    ensures b.kind.InlineUniformBlock? ==> BindingStride(b) == 1 && Asked(b) >= 1
  {
  }

  /** The last entry is that of the last binding, unless that one is empty. */
  lemma LastEntry(s: seq<Binding>, l: Layout)
    requires Sorted(s) && IsLayout(s, l) && s != []
    ensures var last := s[|s| - 1];
            l.bindings != [] && l.bindings[|l.bindings| - 1] == if last.count > 0 then EntryOf(s, |s| - 1) else UNSET
  {
    hide EntryOf;
    assert !Describes(s, |s|, s[|s| - 1].number) || s[|s| - 1].count > 0;
  }

  lemma StrideFits(v: nat, stride: nat, room: nat)
    requires stride > 0
    ensures v <= room / stride <==> v * stride <= room
  {
    Split(room, stride);
    Distributes(stride, room / stride, 1);
    if v <= room / stride {
      MulGrows(v, room / stride, stride);
    } else {
      MulGrows(room / stride + 1, v, stride);
    }
  }

  /** When the query has said that a layout is supported, every set allocated with a variable count up to the
      maximum it returned has no more descriptors than the hardware can address. */
  lemma SupportBoundsAllocation(asked: seq<Binding>, s: seq<Binding>, l: Layout, maxVariable: int, v: nat)
    requires multiset(asked) == multiset(s) && Sorted(s) && IsLayout(s, l)
    requires forall i :: 0 <= i < |s| - 1 ==> !s[i].variable
    requires Sum(Asked, asked) <= MAX_DESCS_PER_SET
    requires forall i :: 0 <= i < |asked| && Resizable(asked[i]) ==>
                 IsLargest(asked[i], Sum(AskedFixed, asked), maxVariable)
    requires v <= maxVariable
    ensures 0 <= AllocCount(l, v) <= MAX_DESCS_PER_SET
  {
    hide Sum, Size, Asked, AskedFixed, EntryOf, Stride, IubDescCount, MaxVariable, IubSize, LaidOut;
    SumPermuted(Asked, asked, s);
    SumPermuted(AskedFixed, asked, s);
    SumsInOrder(s);
    if s != [] {
      var n := |s| - 1;
      var last := s[n];
      LastEntry(s, l);
      if last.count > 0 && Resizable(last) {
        assert last in multiset(asked);
        ResizedFits(s, v, maxVariable);
        EntryIs(s, l);
      } else {
        EntryKind(s, n);
      }
    }
  }

  lemma SumsInOrder(s: seq<Binding>)
    requires forall i :: 0 <= i < |s| - 1 ==> !s[i].variable
    ensures Sum(Size, s) <= Sum(Asked, s)
    ensures s != [] ==> Sum(Size, s[..|s| - 1]) <= Sum(AskedFixed, s[..|s| - 1]) <= Sum(Asked, s[..|s| - 1])
  {
    hide Sum, Size, Asked, AskedFixed;
    forall b: Binding ensures Size(b) <= Asked(b) && AskedFixed(b) <= Asked(b)
        && (!b.variable ==> Size(b) <= AskedFixed(b)) { SizeIsAsked(b); }
    SumBelow(Size, Asked, s);
    if s != [] {
      SumBelow(Size, AskedFixed, s[..|s| - 1]);
      SumBelow(AskedFixed, Asked, s[..|s| - 1]);
    }
  }

  /** What is allocated: the other bindings, and the variable one at its actual size. */
  lemma EntryIs(s: seq<Binding>, l: Layout)
    requires s != [] && IsLayout(s, l) && s[|s| - 1].count > 0 && Resizable(s[|s| - 1])
    ensures var n := |s| - 1;
            var e := EntryOf(s, n);
            && e.kind == s[n].kind && e.variable && Stride(e) == BindingStride(s[n])
            && l.descCount == Sum(Size, s[..n]) + e.descCount * Stride(e)
            && (e.kind.InlineUniformBlock? ==> Stride(e) == 1)
  {
    hide Sum;
    BindingRange(s, |s| - 1);
    assert s[..|s|] == s;
  }

  lemma ResizedFits(s: seq<Binding>, v: nat, m: int)
    requires s != [] && Resizable(s[|s| - 1]) && Sum(Asked, s) <= MAX_DESCS_PER_SET
    requires Sum(Size, s[..|s| - 1]) <= Sum(AskedFixed, s[..|s| - 1]) <= Sum(Asked, s[..|s| - 1])
    requires IsLargest(s[|s| - 1], Sum(AskedFixed, s), m) && v <= m
    ensures Sum(Size, s[..|s| - 1]) + VariableCost(s[|s| - 1], v) <= MAX_DESCS_PER_SET
  {
    hide Sum, Size, VariableCost, Asked, AskedFixed;
    var n := |s| - 1;
    var last := s[n];
    SumNext(Asked, s, n);
    SumNext(AskedFixed, s, n);
    assert s[..|s|] == s;
    SizeIsAsked(last);
    AskedParts(last);
  }
}
