/**
 Memory of multisampled images behind a single-sampled one: the size that is reported is computed forwards, the
 places of the images backwards from that size.
 */
module MsImages {
  import opened Numbers

  /** One of the multisampled images; not every sample count has one. */
  datatype Image = Missing | Image(size: nat, alignment: nat)

  predicate Proper(subs: seq<Image>) {
    forall i :: 0 <= i < |subs| && subs[i].Image? ==> subs[i].alignment > 0
  }

  function SizeOf(i: Image): nat {
    if i.Missing? then 0 else i.size
  }

  function AlignmentOf(i: Image): nat {
    if i.Missing? then 1 else i.alignment
  }

  /** The end of the first `n` images, placed one behind the other from `from` on. */
  function EndOf(subs: seq<Image>, n: nat, from: nat): nat
    requires n <= |subs| && Proper(subs)
  {
    if n == 0 then from
    else
      var before := EndOf(subs, n - 1, from);
      if subs[n - 1].Missing? then before else Align(before, subs[n - 1].alignment) + subs[n - 1].size
  }

  /** The requirements of the whole: each image is appended, aligned, and the alignment is the largest of all. */
  method Requirements(base: nat, alignment: nat, subs: seq<Image>) returns (size: nat, al: nat)
    requires Proper(subs)
    ensures size == EndOf(subs, |subs|, base)
    ensures al >= alignment && forall i :: 0 <= i < |subs| && subs[i].Image? ==> al >= subs[i].alignment
    ensures al == alignment || exists i :: 0 <= i < |subs| && subs[i].Image? && al == subs[i].alignment
  {
    size, al := base, alignment;
    for i := 0 to |subs|
      invariant size == EndOf(subs, i, base)
      invariant al >= alignment && forall k :: 0 <= k < i && subs[k].Image? ==> al >= subs[k].alignment
      invariant al == alignment || exists k :: 0 <= k < i && subs[k].Image? && al == subs[k].alignment
    {
      if subs[i].Missing? { continue; }
      al := if al > subs[i].alignment then al else subs[i].alignment;
      size := Align(size, subs[i].alignment) + subs[i].size;
    }
  }

  lemma AlignOne(n: nat)
    ensures Align(n, 1) == n
  {
    Aligned(n, 1);
  }

  lemma AlignZero(a: nat)
    requires a > 0
    ensures Align(0, a) == 0
  {
    Aligned(0, a);
  }

  /** The images together, from an aligned start. */
  method AlignedSize(subs: seq<Image>) returns (size: nat)
    requires Proper(subs)
    ensures size == EndOf(subs, |subs|, 0)
  {
    size := 0;
    if subs != [] { AlignZero(AlignmentOf(subs[0])); }
    for i := 0 to |subs|
      invariant size == if i < |subs| then Align(EndOf(subs, i, 0), AlignmentOf(subs[i])) else EndOf(subs, i, 0)
    {
      if subs[i].Missing? { AlignOne(EndOf(subs, i, 0)); }
      size := size + SizeOf(subs[i]);
      if i < |subs| - 1 {
        size := Align(size, AlignmentOf(subs[i + 1]));
      }
    }
  }

  /** Where image `i` is bound, when the first one may start at `from`. */
  function Place(subs: seq<Image>, i: nat, from: nat): nat
    requires i < |subs| && Proper(subs)
  {
    Align(EndOf(subs, i, from), AlignmentOf(subs[i]))
  }

  lemma AlignGrows(m: nat, n: nat, a: nat)
    requires a > 0 && m <= n
    ensures Align(m, a) <= Align(n, a)
  {
    var p, q := Align(m, a), Align(n, a);
    Split(p, a);
    Split(q, a);
    Factor(p / a - q / a, a, 1);
    assert (p / a - q / a) * a == (p / a) * a - (q / a) * a;
  }

  lemma {:induction false} EndGrows(subs: seq<Image>, n: nat, from: nat, to: nat)
    requires n <= |subs| && Proper(subs) && from <= to
    ensures from <= EndOf(subs, n, from) <= EndOf(subs, n, to)
    decreases n
  {
    if n > 0 {
      EndGrows(subs, n - 1, from, to);
      if subs[n - 1].Image? { AlignGrows(EndOf(subs, n - 1, from), EndOf(subs, n - 1, to), subs[n - 1].alignment); }
    }
  }

  lemma EndStart(subs: seq<Image>, from: nat)
    requires Proper(subs)
    ensures EndOf(subs, 0, from) == from
  {
  }

  /** One image further. */
  lemma EndStep(subs: seq<Image>, i: nat, from: nat)
    requires Proper(subs) && i < |subs|
    ensures subs[i].Missing? ==> EndOf(subs, i + 1, from) == EndOf(subs, i, from)
    ensures subs[i].Image? ==> (subs[i].alignment > 0 && Place(subs, i, from)
                                == Align(EndOf(subs, i, from), subs[i].alignment)
                                && EndOf(subs, i + 1, from) == Place(subs, i, from) + subs[i].size)
  {
  }

  /** Bind the images that there are, so that the last ends where the reported size does. */
  method BindImages(memoryOffset: nat, base: nat, alignment: nat, subs: seq<Image>) returns (offsets: seq<nat>)
    requires Proper(subs)
    ensures |offsets| == |subs|
    ensures var from := memoryOffset + EndOf(subs, |subs|, base) - EndOf(subs, |subs|, 0);
            from >= memoryOffset && forall i :: 0 <= i < |subs| && subs[i].Image? ==> offsets[i] == Place(subs, i, from)
  {
    hide EndOf, Align, Place;
    var total, _ := Requirements(base, alignment, subs);
    var size := AlignedSize(subs);
    EndGrows(subs, |subs|, 0, base);
    var offset := memoryOffset + total - size;
    EndStart(subs, offset);
    ghost var from := offset;
    offsets := [];
    for i := 0 to |subs|
      invariant |offsets| == i && offset == EndOf(subs, i, from)
      invariant forall k :: 0 <= k < i && subs[k].Image? ==> offsets[k] == Place(subs, k, from)
    {
      EndStep(subs, i, from);
      if subs[i].Missing? {
        offsets := offsets + [0];
        continue;
      }
      offset := Align(offset, subs[i].alignment);
      offsets := offsets + [offset];
      offset := offset + subs[i].size;
    }
  }

  // ----- Forwards and backwards agree ---------------------------------------------------------------------

  predicate SameAlignment(subs: seq<Image>, a: nat) {
    a > 0 && forall i :: 0 <= i < |subs| && subs[i].Image? ==> subs[i].alignment == a
  }

  lemma AlignShifts(k: nat, n: nat, a: nat)
    requires a > 0 && k % a == 0
    ensures Align(k + n, a) == k + Align(n, a)
  {
    Split(k, a);
    var q := k / a;
    Split(n + a - 1, a);
    assert k + n + a - 1 == (q + (n + a - 1) / a) * a + (n + a - 1) % a;
    Quotient(k + n + a - 1, a, q + (n + a - 1) / a, (n + a - 1) % a);
    assert (q + (n + a - 1) / a) * a == q * a + (n + a - 1) / a * a;
  }

  /** Moving the start by a multiple of the alignment moves everything by it. */
  lemma {:induction false} EndShifts(subs: seq<Image>, n: nat, k: nat, from: nat, a: nat)
    requires n <= |subs| && SameAlignment(subs, a) && k % a == 0
    ensures Proper(subs) && EndOf(subs, n, k + from) == k + EndOf(subs, n, from)
    decreases n
  {
    if n > 0 {
      EndShifts(subs, n - 1, k, from, a);
      if subs[n - 1].Image? { AlignShifts(k, EndOf(subs, n - 1, from), a); }
    }
  }

  /** Once there is an image, it makes no difference whether the start was aligned. */
  lemma {:induction false} EndAligns(subs: seq<Image>, n: nat, from: nat, a: nat)
    requires n <= |subs| && SameAlignment(subs, a)
    ensures Proper(subs)
    ensures (exists i :: 0 <= i < n && subs[i].Image?) ==> EndOf(subs, n, from) == EndOf(subs, n, Align(from, a))
    ensures (forall i :: 0 <= i < n ==> subs[i].Missing?) ==> forall x: nat :: EndOf(subs, n, x) == x
    decreases n
  {
    if n > 0 {
      EndAligns(subs, n - 1, from, a);
      if subs[n - 1].Image? && forall i :: 0 <= i < n - 1 ==> subs[i].Missing? {
        Aligned(Align(from, a), a);
      }
    }
  }

  lemma {:induction false} EndOrder(subs: seq<Image>, i: nat, j: nat, from: nat)
    requires i <= j <= |subs| && Proper(subs)
    ensures EndOf(subs, i, from) <= EndOf(subs, j, from)
    decreases j
  {
    if i < j { EndOrder(subs, i, j - 1, from); }
  }

  lemma {:induction false} EndOfLast(subs: seq<Image>, i: nat, j: nat, from: nat)
    requires i <= j <= |subs| && Proper(subs) && forall k :: i <= k < j ==> subs[k].Missing?
    ensures EndOf(subs, i, from) == EndOf(subs, j, from)
    decreases j
  {
    if i < j { EndOfLast(subs, i, j - 1, from); }
  }

  /** With one alignment for all, and memory bound at a multiple of it, the images are aligned, behind the base
      image, one behind the other, and end exactly where the reported size says, whichever are missing. */
  lemma BoundImages(memoryOffset: nat, base: nat, subs: seq<Image>, a: nat, i: nat)
    requires SameAlignment(subs, a) && memoryOffset % a == 0 && i < |subs| && subs[i].Image?
    ensures Proper(subs)
    ensures var total := EndOf(subs, |subs|, base);
            var from := memoryOffset + total - EndOf(subs, |subs|, 0);
            && from >= 0 && Place(subs, i, from) % a == 0 && memoryOffset + base <= Place(subs, i, from)
            && Place(subs, i, from) + subs[i].size <= memoryOffset + total
            && (forall j :: i < j < |subs| && subs[j].Image? ==>
                    Place(subs, i, from) + subs[i].size <= Place(subs, j, from))
            && ((forall j :: i < j < |subs| ==> subs[j].Missing?) ==>
                    Place(subs, i, from) + subs[i].size == memoryOffset + total)
  {
    hide EndOf, Align, Place;
    var n, from := |subs|, memoryOffset + Align(base, a);
    BoundFrom(memoryOffset, base, subs, a, i);
    PlaceBehind(subs, i, from, a);
    EndOrder(subs, i + 1, n, from);
    forall j | i < j < n && subs[j].Image? ensures Place(subs, i, from) + subs[i].size <= Place(subs, j, from) {
      EndOrder(subs, i + 1, j, from);
      PlaceBehind(subs, j, from, a);
    }
    if forall j :: i < j < n ==> subs[j].Missing? { EndOfLast(subs, i + 1, n, from); }
  }

  /** Counting back from the end leads to the first aligned place behind the base image. */
  lemma BoundFrom(memoryOffset: nat, base: nat, subs: seq<Image>, a: nat, i: nat)
    requires SameAlignment(subs, a) && memoryOffset % a == 0 && i < |subs| && subs[i].Image?
    ensures Proper(subs)
    ensures var n, from := |subs|, memoryOffset + Align(base, a);
            && memoryOffset + EndOf(subs, n, base) - EndOf(subs, n, 0) == from
            && EndOf(subs, n, from) == memoryOffset + EndOf(subs, n, base)
  {
    hide EndOf, Align;
    var n, start := |subs|, Align(base, a);
    EndAligns(subs, n, base, a);
    EndShifts(subs, n, start, 0, a);
    SumOfMultiples(memoryOffset, start, a);
    EndShifts(subs, n, memoryOffset + start, 0, a);
  }

  lemma PlaceBehind(subs: seq<Image>, i: nat, from: nat, a: nat)
    requires SameAlignment(subs, a) && i < |subs| && subs[i].Image?
    ensures Proper(subs) && Place(subs, i, from) % a == 0 && from <= EndOf(subs, i, from) <= Place(subs, i, from)
    ensures EndOf(subs, i + 1, from) == Place(subs, i, from) + subs[i].size
  {
    EndGrows(subs, i, from, from);
    EndNext(subs, i, from);
  }

  lemma EndNext(subs: seq<Image>, i: nat, from: nat)
    requires i < |subs| && Proper(subs) && subs[i].Image?
    ensures EndOf(subs, i + 1, from) == Place(subs, i, from) + subs[i].size
  {
  }

  lemma SumOfMultiples(m: nat, n: nat, a: nat)
    requires a > 0 && m % a == 0 && n % a == 0
    ensures (m + n) % a == 0
  {
    Split(m, a);
    Split(n, a);
    Multiple(m / a + n / a, a);
    assert (m / a + n / a) * a == (m / a) * a + (n / a) * a;
  }
}
