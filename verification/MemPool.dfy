/**
 The suballocating memory pool, in the mode where the pool owns its buffer objects: they come from free lists
 shared by several pools, or from the kernel, and go back to the free lists when a pool is reset.
 */
module MemPool {
  import opened Numbers

  class Bo {
    const size: nat

    constructor (size: nat)
      ensures this.size == size
    {
      this.size := size;
    }
  }

  /** A free list. */
  class BoPool {
    var free: seq<Bo>

    constructor ()
      ensures free == []
    {
      free := [];
    }
  }

  /** A piece of a buffer object. */
  datatype Mem = Mem(bo: Bo, offset: nat, size: nat)

  datatype Result = Failed | Done(mem: Mem)

  /** Nothing is on the list twice. */
  predicate Distinct(s: seq<Bo>) {
    forall i, j :: 0 <= i < j < |s| ==> s[i] != s[j]
  }

  predicate Separate(a: seq<Bo>, b: seq<Bo>) {
    forall x :: x in a ==> x !in b
  }

  /** Two pieces that can be in use at the same time. */
  predicate Disjoint(a: Mem, b: Mem) {
    a.bo != b.bo || a.offset + a.size <= b.offset || b.offset + b.size <= a.offset
  }

  lemma Refiled(a: seq<Bo>, b: seq<Bo>, bo: Bo)
    requires Distinct(a + b) && bo !in a + b
    ensures Distinct(a + [bo] + b) && Distinct(a + (b + [bo]))
  {
    var s, t := a + [bo] + b, a + (b + [bo]);
    forall i, j | 0 <= i < j < |s| ensures s[i] != s[j] {
      assert forall k :: 0 <= k < |s| && k != |a| ==> s[k] == (a + b)[if k < |a| then k else k - 1];
    }
    assert t == (a + b) + [bo];
  }

  class Pool {
    const slabSize: nat
    const pageSize: nat
    const boPool: BoPool?
    const bigBoPool: BoPool?

    var bos: seq<Bo>
    var bigBos: seq<Bo>
    var boCount: nat
    var transientBo: Bo?
    var transientOffset: nat

    /** What has been allocated since the last reset. */
    ghost var live: seq<Mem>

    ghost predicate Valid()
      reads this
    {
      && pageSize > 0 && boCount == |bos| + |bigBos| && Distinct(bos + bigBos)
      && (forall b :: b in bos ==> b.size == slabSize)
      && (forall b :: b in bigBos ==> b.size != slabSize)
      && (transientBo != null ==> transientBo in bos + bigBos && transientOffset <= transientBo.size)
      && (forall k :: 0 <= k < |live| ==> Held(live[k]))
      && forall j, k :: 0 <= j < k < |live| ==> Disjoint(live[j], live[k])
    }

    /** In a buffer object of this pool, inside it, and below what is still to be handed out. */
    ghost predicate Held(m: Mem)
      reads this
    {
      && m.bo in bos + bigBos && m.offset + m.size <= m.bo.size
      && (m.bo == transientBo ==> m.offset + m.size <= transientOffset)
    }

    /** On a list, but nothing has been handed out from it and nothing is going to be. */
    ghost predicate Idle(bo: Bo)
      reads this
    {
      bo in bos + bigBos && bo != transientBo && forall m :: m in live ==> m.bo != bo
    }

    constructor Empty(slabSize: nat, pageSize: nat, boPool: BoPool?, bigBoPool: BoPool?)
      requires pageSize > 0
      ensures Valid() && live == [] && bos == bigBos == [] && boCount == 0 && transientBo == null
      ensures this.slabSize == slabSize && this.pageSize == pageSize && this.boPool == boPool
      ensures this.bigBoPool == bigBoPool
    {
      this.slabSize, this.pageSize, this.boPool, this.bigBoPool := slabSize, pageSize, boPool, bigBoPool;
      bos, bigBos, boCount, transientBo, transientOffset, live := [], [], 0, null, 0, [];
    }

    /** Put a buffer object on the list it belongs to. */
    method File(bo: Bo)
      requires Valid() && bo !in bos + bigBos
      modifies this`bos, this`bigBos, this`boCount
      ensures Valid() && bo in bos + bigBos && forall b :: b in bos + bigBos <==> b in old(bos + bigBos) || b == bo
      ensures bos == old(bos) + (if bo.size == slabSize then [bo] else [])
      ensures bigBos == old(bigBos) + (if bo.size == slabSize then [] else [bo])
      ensures boCount == old(boCount) + 1 && forall m :: m in live ==> m.bo != bo
    {
      NewIsFree(bo);
      if bo.size == slabSize {
        bos := bos + [bo];
      } else {
        bigBos := bigBos + [bo];
      }
      boCount := boCount + 1;
      assert forall b :: b in bos + bigBos <==> b in old(bos + bigBos) || b == bo;
      Refiled(old(bos), old(bigBos), bo);
      assert forall m :: m in live ==> old(Held(m));
    }

    /** Allocate from `bo` from now on, if that leaves more room than going on as before. */
    method Prefer(bo: Bo, size: nat)
      requires Valid() && bo in bos + bigBos && transientBo != bo && forall m :: m in live ==> m.bo != bo
      modifies this`transientBo, this`transientOffset
      ensures Valid()
      ensures if old(Left()) < bo.size - size then transientBo == bo && transientOffset == 0
              else transientBo == old(transientBo) && transientOffset == old(transientOffset)
    {
      hide Distinct;
      Used();
      if Left() < bo.size - size {
        transientBo := bo;
        transientOffset := 0;
      }
    }

    /** The room left in the buffer object allocations come from. */
    function Left(): int
      reads this
    {
      if transientBo == null then 0 else transientBo.size - transientOffset
    }

    lemma Used()
      requires Valid()
      ensures forall m :: m in live ==> Held(m)
    {
    }

    /** Hand out a piece of `bo` that is behind everything handed out from it before. */
    method Commit(m: Mem)
      requires Valid() && m.bo in bos + bigBos && m.offset + m.size <= m.bo.size
      requires if m.bo == transientBo then transientOffset <= m.offset else forall l :: l in live ==> l.bo != m.bo
      modifies this`transientOffset, this`live
      ensures Valid() && live == old(live) + [m] && forall l :: l in old(live) ==> Disjoint(l, m)
      ensures transientOffset == if m.bo == transientBo then m.offset + m.size else old(transientOffset)
    {
      hide Distinct;
      Used();
      if transientBo == m.bo {
        transientOffset := m.offset + m.size;
      }
      live := live + [m];
    }

    method Clear()
      requires Valid()
      modifies this
      ensures Valid() && live == [] && bos == bigBos == [] && boCount == 0 && transientBo == null
    {
      bos, bigBos := [], [];
      boCount := 0;
      transientBo := null;
      live := [];
    }

    lemma NewIsFree(bo: Bo)
      requires Valid() && bo !in bos + bigBos
      ensures forall m :: m in live ==> m.bo != bo
    {
      forall m | m in live ensures m.bo != bo {
        var k :| 0 <= k < |live| && live[k] == m;
        assert Held(live[k]);
      }
    }
  }

  ghost function FreeOf(b: BoPool?): seq<Bo>
    reads b
  {
    if b == null then [] else b.free
  }

  /** Any number of pools that share their free lists and slab size. Every buffer object is on exactly one
      list, and on the one for its size. */
  ghost predicate Sane(pools: set<Pool>, free: BoPool?, big: BoPool?, slab: nat)
    reads pools, free, big
  {
    && (forall p :: p in pools ==> p.Valid() && p.boPool == free && p.bigBoPool == big && p.slabSize == slab)
    && (free != null ==> free != big)
    && Distinct(FreeOf(free) + FreeOf(big))
    && (forall b :: b in FreeOf(free) ==> b.size == slab)
    && (forall b :: b in FreeOf(big) ==> b.size != slab)
    && (forall p :: p in pools ==> Separate(p.bos + p.bigBos, FreeOf(free) + FreeOf(big)))
    && forall p, q :: p in pools && q in pools && p != q ==> Separate(p.bos + p.bigBos, q.bos + q.bigBos)
  }

  ghost predicate Member(p: Pool, pools: set<Pool>)
    reads p, p.boPool, p.bigBoPool, pools
  {
    p in pools && Sane(pools, p.boPool, p.bigBoPool, p.slabSize)
  }

  lemma MemberValid(p: Pool, pools: set<Pool>)
    requires Member(p, pools)
    ensures p.Valid()
  {
  }

  /** What the kernel does when it is asked for a buffer object: refuse, or return a new one at least as large. */
  datatype Grant = Refused | Granted(extra: nat)

  /** On no list at all. */
  ghost predicate Loose(bo: Bo, pools: set<Pool>, free: BoPool?, big: BoPool?)
    reads pools, free, big
  {
    bo !in FreeOf(free) + FreeOf(big) && forall p :: p in pools ==> bo !in p.bos + p.bigBos
  }

  lemma Removed(s: seq<Bo>, t: seq<Bo>, k: nat)
    requires k < |s|
    ensures Distinct(s + t) ==> Distinct(s[..k] + s[k + 1..] + t) && s[k] !in s[..k] + s[k + 1..] + t
    ensures Distinct(t + s) ==> Distinct(t + (s[..k] + s[k + 1..])) && s[k] !in t + (s[..k] + s[k + 1..])
    ensures forall b :: b in s[..k] + s[k + 1..] ==> b in s
  {
    var r := s[..k] + s[k + 1..];
    assert forall i :: 0 <= i < |r| ==> r[i] == s[if i < k then i else i + 1];
    if Distinct(s + t) {
      assert forall i :: 0 <= i < |r + t| ==> (r + t)[i] == (s + t)[if i < k then i else i + 1];
      assert (s + t)[k] == s[k];
    }
    if Distinct(t + s) {
      assert forall i :: 0 <= i < |t + r| ==> (t + r)[i] == (t + s)[if i < |t| + k then i else i + 1];
      assert (t + s)[|t| + k] == s[k];
    }
  }

  /** The first buffer object on the list that is large enough. */
  method FindBig(list: seq<Bo>, size: nat) returns (k: nat)
    ensures k <= |list| && (k < |list| ==> list[k].size >= size)
    ensures forall j :: 0 <= j < k ==> list[j].size < size
  {
    k := 0;
    while k < |list| && list[k].size < size
      invariant k <= |list| && forall j :: 0 <= j < k ==> list[j].size < size
    {
      k := k + 1;
    }
  }

  /** The first on the list that is large enough. */
  ghost predicate IsFirst(list: seq<Bo>, k: nat, size: nat) {
    k < |list| && list[k].size >= size && forall j :: 0 <= j < k ==> list[j].size < size
  }

  /** Where a buffer object of `size` comes from: when a whole slab is asked for and there is one, the head of the
      list of slabs; otherwise the first one that is large enough on the other list; the kernel is asked only when
      there is neither. The lists are `free` and `big` before, and `freeNow` and `bigNow` after. */
  ghost predicate Given(free: seq<Bo>, big: seq<Bo>, freeNow: seq<Bo>, bigNow: seq<Bo>, slab: nat, size: nat,
                        grant: Grant, bo: Bo?)
  {
    if size == slab && free != [] then bo == free[0] && freeNow == free[1..] && bigNow == big
    else freeNow == free && if exists k: nat :: IsFirst(big, k, size)
                            then exists k: nat ::
                                   IsFirst(big, k, size) && bo == big[k] && bigNow == big[..k] + big[k + 1..]
                            else bigNow == big && FromKernel(size, grant, bo)
  }

  ghost predicate FromKernel(size: nat, grant: Grant, bo: Bo?) {
    if grant.Refused? then bo == null else bo != null && bo.size == size + grant.extra
  }

  /** Take a buffer object off a free list. */
  method TakeFree(list: BoPool, k: nat, ghost pools: set<Pool>, ghost free: BoPool?, ghost big: BoPool?,
                  ghost slab: nat) returns (bo: Bo)
    requires Sane(pools, free, big, slab) && k < |list.free| && (list == free || list == big)
    modifies list
    ensures bo == old(list.free)[k] && list.free == old(list.free)[..k] + old(list.free)[k + 1..]
    ensures Sane(pools, free, big, slab) && Loose(bo, pools, free, big)
  {
    hide Distinct;
    ghost var s, t := list.free, if list == free then FreeOf(big) else FreeOf(free);
    Removed(s, t, k);
    bo := list.free[k];
    assert forall p :: p in pools ==> bo !in p.bos + p.bigBos by {
      assert bo in FreeOf(free) + FreeOf(big);
    }
    list.free := list.free[..k] + list.free[k + 1..];
  }

  /** A buffer object from the free lists, or else from the kernel. */
  method Take(p: Pool, size: nat, grant: Grant, ghost pools: set<Pool>) returns (bo: Bo?)
    requires Member(p, pools)
    modifies p.boPool, p.bigBoPool
    ensures Member(p, pools)
    ensures bo != null ==> bo.size >= size && Loose(bo, pools, p.boPool, p.bigBoPool)
    ensures Given(old(FreeOf(p.boPool)), old(FreeOf(p.bigBoPool)), FreeOf(p.boPool), FreeOf(p.bigBoPool),
                  p.slabSize, size, grant, bo)
    ensures bo == null ==> grant.Refused?
    ensures bo == null || bo in old(FreeOf(p.boPool) + FreeOf(p.bigBoPool)) || fresh(bo)
  {
    if p.boPool != null && size == p.slabSize && p.boPool.free != [] {
      ghost var free := p.boPool.free;
      assert free[..0] + free[1..] == free[1..];
      bo := TakeFree(p.boPool, 0, pools, p.boPool, p.bigBoPool, p.slabSize);
      return;
    }
    if p.bigBoPool != null {
      var k := FindBig(p.bigBoPool.free, size);
      if k < |p.bigBoPool.free| {
        assert IsFirst(FreeOf(p.bigBoPool), k, size);
        bo := TakeFree(p.bigBoPool, k, pools, p.boPool, p.bigBoPool, p.slabSize);
        return;
      }
    }
    match grant
    case Refused => bo := null;
    case Granted(extra) => bo := new Bo(size + extra);
  }

  /** A loose buffer object joins a pool. */
  method Join(p: Pool, bo: Bo, ghost pools: set<Pool>)
    requires Member(p, pools) && Loose(bo, pools, p.boPool, p.bigBoPool)
    modifies p`bos, p`bigBos, p`boCount
    ensures Member(p, pools)
    ensures bo !in old(p.bos + p.bigBos) && forall b :: b in p.bos + p.bigBos <==> b in old(p.bos + p.bigBos) || b == bo
    ensures p.boCount == old(p.boCount) + 1 && forall m :: m in p.live ==> m.bo != bo
    ensures p.bos == old(p.bos) + (if bo.size == p.slabSize then [bo] else [])
    ensures p.bigBos == old(p.bigBos) + (if bo.size == p.slabSize then [] else [bo])
  {
    hide Distinct, Separate;
    ghost var was, free := p.bos + p.bigBos, FreeOf(p.boPool) + FreeOf(p.bigBoPool);
    p.File(bo);
    forall q | q in pools && q != p
      ensures q.Valid() && Separate(q.bos + q.bigBos, p.bos + p.bigBos) && Separate(p.bos + p.bigBos, q.bos + q.bigBos)
    {
      StillSeparate(q.bos + q.bigBos, was, p.bos + p.bigBos, bo);
    }
    StillSeparate(free, was, p.bos + p.bigBos, bo);
  }

  lemma StillSeparate(a: seq<Bo>, was: seq<Bo>, now: seq<Bo>, bo: Bo)
    requires Separate(was, a) && bo !in a && forall b :: b in now ==> b in was || b == bo
    ensures Separate(a, now) && Separate(now, a)
  {
  }

  /** What a backing buffer object is asked to hold: the slab size or the request, whichever is larger, in whole
      pages. */
  ghost function BackingSize(p: Pool, size: nat): (n: nat)
    requires p.pageSize > 0
    ensures n >= size && n >= p.slabSize && n % p.pageSize == 0
    ensures n < size + p.pageSize || n < p.slabSize + p.pageSize
  {
    if size >= p.slabSize then Align(size, p.pageSize) else Align(p.slabSize, p.pageSize)
  }

  lemma BackingFits(p: Pool, size: nat, boSize: nat)
    requires p.pageSize > 0 && boSize == Align(if p.slabSize > size then p.slabSize else size, p.pageSize)
    ensures boSize == BackingSize(p, size)
  {
  }

  /** A new backing buffer object. It becomes the one allocations come from when more is left in it, after
      `size`, than in the present one. */
  method AllocBacking(p: Pool, size: nat, grant: Grant, ghost pools: set<Pool>) returns (bo: Bo?)
    requires Member(p, pools)
    modifies p, p.boPool, p.bigBoPool
    ensures Member(p, pools) && p.live == old(p.live) && p.boCount == old(p.boCount) + if bo == null then 0 else 1
    ensures bo == null ==>
              grant.Refused? && p.transientBo == old(p.transientBo) && p.transientOffset == old(p.transientOffset)
    ensures Given(old(FreeOf(p.boPool)), old(FreeOf(p.bigBoPool)), FreeOf(p.boPool), FreeOf(p.bigBoPool),
                  p.slabSize, BackingSize(p, size), grant, bo)
    ensures p.bos == old(p.bos) + (if bo != null && bo.size == p.slabSize then [bo] else [])
    ensures p.bigBos == old(p.bigBos) + (if bo != null && bo.size != p.slabSize then [bo] else [])
    ensures forall b :: b in p.bos + p.bigBos <==> b in old(p.bos + p.bigBos) || b == bo
    ensures bo == null || bo !in old(p.bos + p.bigBos)
    ensures bo != null ==>
              && size <= bo.size && bo in p.bos + p.bigBos && (forall m :: m in p.live ==> m.bo != bo)
              && (if old(p.Left()) < bo.size - size then p.transientBo == bo && p.transientOffset == 0
                  else p.transientBo == old(p.transientBo) && p.transientOffset == old(p.transientOffset)
                       && p.transientBo != bo)
  {
    hide Distinct, Separate, Align, Sane, Pool.Valid, Given;
    MemberValid(p, pools);
    var boSize := Align(if p.slabSize > size then p.slabSize else size, p.pageSize);
    BackingFits(p, size, boSize);
    bo := Take(p, boSize, grant, pools);
    if bo == null { return; }
    Adopt(p, bo, size, pools);
  }

  /** A loose buffer object joins a pool, which allocates from it if that leaves more room. */
  method Adopt(p: Pool, bo: Bo, size: nat, ghost pools: set<Pool>)
    requires Member(p, pools) && Loose(bo, pools, p.boPool, p.bigBoPool)
    modifies p`bos, p`bigBos, p`boCount, p`transientBo, p`transientOffset
    ensures Member(p, pools) && p.boCount == old(p.boCount) + 1
    ensures p.bos == old(p.bos) + (if bo.size == p.slabSize then [bo] else [])
    ensures p.bigBos == old(p.bigBos) + (if bo.size == p.slabSize then [] else [bo])
    ensures forall b :: b in p.bos + p.bigBos <==> b in old(p.bos + p.bigBos) || b == bo
    ensures bo !in old(p.bos + p.bigBos) && old(p.transientBo) != bo && forall m :: m in p.live ==> m.bo != bo
    ensures if old(p.Left()) < bo.size - size then p.transientBo == bo && p.transientOffset == 0
            else p.transientBo == old(p.transientBo) && p.transientOffset == old(p.transientOffset)
  {
    hide Distinct, Separate, Sane, Pool.Valid;
    Outside(p, bo, pools);
    Join(p, bo, pools);
    PreferIn(p, bo, size, pools);
  }

  /** What one pool hands out from is no concern of the others. */
  method PreferIn(p: Pool, bo: Bo, size: nat, ghost pools: set<Pool>)
    requires Member(p, pools) && bo in p.bos + p.bigBos && p.transientBo != bo && forall m :: m in p.live ==> m.bo != bo
    modifies p`transientBo, p`transientOffset
    ensures Member(p, pools)
    ensures if old(p.Left()) < bo.size - size then p.transientBo == bo && p.transientOffset == 0
            else p.transientBo == old(p.transientBo) && p.transientOffset == old(p.transientOffset)
  {
    hide Distinct, Separate;
    p.Prefer(bo, size);
    assert forall q :: q in pools ==> q.Valid();
  }

  method CommitIn(p: Pool, m: Mem, ghost pools: set<Pool>)
    requires Member(p, pools) && m.bo in p.bos + p.bigBos && m.offset + m.size <= m.bo.size
    requires if m.bo == p.transientBo then p.transientOffset <= m.offset else forall l :: l in p.live ==> l.bo != m.bo
    modifies p`transientOffset, p`live
    ensures Member(p, pools) && p.live == old(p.live) + [m] && forall l :: l in old(p.live) ==> Disjoint(l, m)
    ensures p.transientOffset == if m.bo == p.transientBo then m.offset + m.size else old(p.transientOffset)
  {
    hide Distinct, Separate, Disjoint;
    p.Commit(m);
    assert forall q :: q in pools ==> q.Valid();
  }

  lemma Outside(p: Pool, bo: Bo, pools: set<Pool>)
    requires Member(p, pools) && Loose(bo, pools, p.boPool, p.bigBoPool)
    ensures p.transientBo != bo
  {
  }

  /** A request fits behind what has been handed out of the buffer object allocations come from. */
  ghost predicate Fits(p: Pool, size: nat, alignment: nat)
    requires alignment > 0
    reads p
  {
    p.transientBo != null && Align(p.transientOffset, alignment) + size <= p.transientBo.size
  }

  /** Allocate memory. A request that fits comes out of the present buffer object, at the next aligned offset, and
      touches no list; for any other exactly one buffer object joins the pool. What is returned lies inside its buffer
      object, is aligned, and overlaps nothing that has been allocated since the last reset. */
  method AllocMem(p: Pool, size: nat, alignment: nat, grant: Grant, ghost pools: set<Pool>) returns (r: Result)
    requires Member(p, pools) && alignment > 0
    modifies p, p.boPool, p.bigBoPool
    ensures Member(p, pools)
    ensures old(Fits(p, size, alignment)) ==>
              && r == Done(Mem(old(p.transientBo), Align(old(p.transientOffset), alignment), size))
              && p.transientBo == old(p.transientBo) && p.transientOffset == r.mem.offset + size
              && p.bos == old(p.bos) && p.bigBos == old(p.bigBos) && p.boCount == old(p.boCount)
              && FreeOf(p.boPool) == old(FreeOf(p.boPool)) && FreeOf(p.bigBoPool) == old(FreeOf(p.bigBoPool))
    ensures !old(Fits(p, size, alignment)) ==>
              Given(old(FreeOf(p.boPool)), old(FreeOf(p.bigBoPool)), FreeOf(p.boPool), FreeOf(p.bigBoPool),
                    p.slabSize, BackingSize(p, size), grant, if r.Done? then r.mem.bo else null)
    ensures !old(Fits(p, size, alignment)) && r.Done? ==>
              && r.mem.offset == 0 && r.mem.bo !in old(p.bos + p.bigBos) && p.boCount == old(p.boCount) + 1
              && p.bos == old(p.bos) + (if r.mem.bo.size == p.slabSize then [r.mem.bo] else [])
              && p.bigBos == old(p.bigBos) + (if r.mem.bo.size == p.slabSize then [] else [r.mem.bo])
              && if old(p.Left()) < r.mem.bo.size - size then p.transientBo == r.mem.bo && p.transientOffset == size
                 else p.transientBo == old(p.transientBo) && p.transientOffset == old(p.transientOffset)
    ensures r.Failed? ==>
              && grant.Refused? && p.live == old(p.live) && p.bos == old(p.bos) && p.bigBos == old(p.bigBos)
              && p.transientBo == old(p.transientBo) && p.transientOffset == old(p.transientOffset)
    ensures r.Done? ==>
              && p.live == old(p.live) + [r.mem] && r.mem.size == size && r.mem.offset % alignment == 0
              && r.mem.offset + size <= r.mem.bo.size && r.mem.bo in p.bos + p.bigBos
              && forall m :: m in old(p.live) ==> Disjoint(m, r.mem)
    ensures r.Done? ==> r.mem.bo == old(p.transientBo) || r.mem.bo !in old(p.bos + p.bigBos)
    ensures forall bo :: bo in old(p.bos + p.bigBos) && old(p.Idle(bo)) ==> p.Idle(bo)
  {
    hide Distinct, Separate, Disjoint, Sane, Given, Align;
    MemberValid(p, pools);
    var bo := p.transientBo;
    var offset := Align(p.transientOffset, alignment);
    if bo == null || offset + size > bo.size {
      bo := AllocBacking(p, size, grant, pools);
      offset := 0;
    }
    if bo == null { return Failed; }
    CommitIn(p, Mem(bo, offset, size), pools);
    r := Done(Mem(bo, offset, size));
  }

  /** Everything the pool holds goes back to the free lists, or to the kernel where there are none. */
  method Reset(p: Pool, ghost pools: set<Pool>)
    requires Member(p, pools)
    modifies p, p.boPool, p.bigBoPool
    ensures Member(p, pools) && p.live == [] && p.bos == p.bigBos == [] && p.boCount == 0 && p.transientBo == null
    ensures p.boPool != null ==> p.boPool.free == old(p.boPool.free) + old(p.bos)
    ensures p.bigBoPool != null ==> p.bigBoPool.free == old(p.bigBoPool.free) + old(p.bigBos)
  {
    hide Distinct, Separate;
    ghost var free, big, bos, bigBos := FreeOf(p.boPool), FreeOf(p.bigBoPool), p.bos, p.bigBos;
    ghost var a, c := if p.boPool == null then [] else p.bos, if p.bigBoPool == null then [] else p.bigBos;
    Returned(free, big, a, c, bos, bigBos);
    GiveBack(p.boPool, p.bos);
    GiveBack(p.bigBoPool, p.bigBos);
    p.Clear();
    ghost var all := FreeOf(p.boPool) + FreeOf(p.bigBoPool);
    assert all == (free + a) + (big + c) && p.bos + p.bigBos == [];
    assert forall q :: q in pools ==> q.Valid();
    forall q | q in pools ensures Separate(q.bos + q.bigBos, all) {
      if q == p { NothingSeparate(all); } else { SeparateBoth(q.bos + q.bigBos, free, big, bos, bigBos, a, c); }
    }
    forall q, r | q in pools && r in pools && q != r ensures Separate(q.bos + q.bigBos, r.bos + r.bigBos) {
      if q == p { NothingSeparate(r.bos + r.bigBos); }
      if r == p { SeparateNothing(q.bos + q.bigBos); }
    }
  }

  lemma NothingSeparate(a: seq<Bo>)
    ensures Separate([], a)
  {
  }

  lemma SeparateNothing(a: seq<Bo>)
    ensures Separate(a, [])
  {
  }

  lemma SeparateBoth(s: seq<Bo>, free: seq<Bo>, big: seq<Bo>, bos: seq<Bo>, bigBos: seq<Bo>, a: seq<Bo>, c: seq<Bo>)
    requires Separate(s, free + big) && Separate(s, bos + bigBos) && (a == [] || a == bos) && (c == [] || c == bigBos)
    ensures Separate(s, (free + a) + (big + c))
  {
    forall x | x in s ensures x !in (free + a) + (big + c) { assert x !in free + big && x !in bos + bigBos; }
  }

  method GiveBack(list: BoPool?, bos: seq<Bo>)
    modifies list
    ensures list != null ==> list.free == old(list.free) + bos
  {
    if list != null {
      list.free := list.free + bos;
    }
  }

  lemma Returned(free: seq<Bo>, big: seq<Bo>, a: seq<Bo>, b: seq<Bo>, bos: seq<Bo>, bigBos: seq<Bo>)
    requires Distinct(free + big) && Distinct(bos + bigBos) && Separate(bos + bigBos, free + big)
    requires (a == [] || a == bos) && (b == [] || b == bigBos)
    ensures Distinct((free + a) + (big + b))
  {
    hide Distinct;
    DistinctParts(free, big);
    DistinctParts(bos, bigBos);
    DistinctNothing();
    assert forall x :: x in free || x in big <==> x in free + big;
    assert forall x :: x in bos || x in bigBos <==> x in bos + bigBos;
    DistinctJoined(free, a);
    DistinctJoined(big, b);
    DistinctJoined(free + a, big + b);
  }

  lemma DistinctNothing()
    ensures Distinct([])
  {
  }

  lemma DistinctJoined(a: seq<Bo>, b: seq<Bo>)
    requires Distinct(a) && Distinct(b) && Separate(a, b)
    ensures Distinct(a + b)
  {
    var s := a + b;
    forall i, j | 0 <= i < j < |s| ensures s[i] != s[j] {
      assert i < |a| ==> s[i] in a;
      assert j >= |a| ==> s[j] in b;
    }
  }

  lemma DistinctParts(a: seq<Bo>, b: seq<Bo>)
    requires Distinct(a + b)
    ensures Distinct(a) && Distinct(b) && Separate(a, b)
  {
    var s := a + b;
    assert forall i :: 0 <= i < |a| ==> s[i] == a[i];
    assert forall i :: 0 <= i < |b| ==> s[|a| + i] == b[i];
  }

  method NewPool(slabSize: nat, pageSize: nat, boPool: BoPool?, bigBoPool: BoPool?,
                 ghost pools: set<Pool>) returns (p: Pool)
    requires pageSize > 0 && Sane(pools, boPool, bigBoPool, slabSize)
    ensures fresh(p) && Member(p, pools + {p}) && p.boPool == boPool && p.bigBoPool == bigBoPool
    ensures p.slabSize == slabSize && p.pageSize == pageSize
    ensures p.live == [] && p.bos == p.bigBos == [] && p.boCount == 0 && p.transientBo == null
  {
    hide Distinct, Separate;
    p := new Pool.Empty(slabSize, pageSize, boPool, bigBoPool);
    assert p.bos + p.bigBos == [];
    forall q | q in pools + {p} ensures q.Valid() && Separate(q.bos + q.bigBos, FreeOf(boPool) + FreeOf(bigBoPool)) {
      if q == p { NothingSeparate(FreeOf(boPool) + FreeOf(bigBoPool)); }
    }
    forall q, r | q in pools + {p} && r in pools + {p} && q != r ensures Separate(q.bos + q.bigBos, r.bos + r.bigBos) {
      if q == p { NothingSeparate(r.bos + r.bigBos); }
      if r == p { SeparateNothing(q.bos + q.bigBos); }
    }
  }

  lemma SlabsFit(pools: set<Pool>, free: BoPool?, big: BoPool?, slab: nat)
    requires Sane(pools, free, big, slab)
    ensures forall b :: b in FreeOf(free) ==> b.size == slab
  {
  }

  /** A new pool. With `prealloc` it asks for one buffer object right away. That one is allocated from unless it is
      exactly as large as the slab size: an allocation of that size would leave nothing over in it. */
  method Init(slabSize: nat, pageSize: nat, boPool: BoPool?, bigBoPool: BoPool?, prealloc: bool, grant: Grant,
              ghost pools: set<Pool>)
    returns (p: Pool)
    requires pageSize > 0 && Sane(pools, boPool, bigBoPool, slabSize)
    modifies boPool, bigBoPool
    ensures fresh(p) && Member(p, pools + {p}) && p.live == [] && p.boPool == boPool && p.bigBoPool == bigBoPool
    ensures p.slabSize == slabSize && p.boCount <= 1 && (p.boCount == 1 ==> prealloc)
    ensures prealloc && grant.Granted? ==> p.boCount == 1
    ensures if prealloc && Align(slabSize, pageSize) == slabSize && old(FreeOf(boPool)) != []
            then p.bos == old(FreeOf(boPool))[..1] && p.bigBos == [] && FreeOf(boPool) == old(FreeOf(boPool))[1..]
                 && FreeOf(bigBoPool) == old(FreeOf(bigBoPool))
            else FreeOf(boPool) == old(FreeOf(boPool)) && (!prealloc ==> FreeOf(bigBoPool) == old(FreeOf(bigBoPool)))
    ensures forall bo :: bo in p.bos + p.bigBos ==> (p.Idle(bo) <==> bo.size == slabSize)
  {
    hide Distinct, Sane, Align;
    SlabsFit(pools, boPool, bigBoPool, slabSize);
    p := NewPool(slabSize, pageSize, boPool, bigBoPool, pools);
    if prealloc {
      var bo := AllocBacking(p, slabSize, grant, pools + {p});
    }
  }

  datatype Request = Request(size: nat, alignment: nat, grant: Grant)

  /** What has been handed out, in order. */
  ghost function Pieces(rs: seq<Result>): seq<Mem> {
    if rs == [] then []
    else
      var last := rs[|rs| - 1];
      Pieces(rs[..|rs| - 1]) + if last.Done? then [last.mem] else []
  }

  lemma PiecesNext(rs: seq<Result>, r: Result)
    ensures Pieces(rs + [r]) == Pieces(rs) + if r.Done? then [r.mem] else []
  {
    assert (rs + [r])[..|rs|] == rs;
  }

  /** Any number of allocations: what is idle stays idle, and nothing comes out of it. */
  method AllocMany(p: Pool, requests: seq<Request>, ghost pools: set<Pool>) returns (rs: seq<Result>)
    requires Member(p, pools) && forall k :: 0 <= k < |requests| ==> requests[k].alignment > 0
    modifies p, p.boPool, p.bigBoPool
    ensures Member(p, pools) && |rs| == |requests| && p.live == old(p.live) + Pieces(rs)
    ensures old(p.bos) <= p.bos && old(p.bigBos) <= p.bigBos
    ensures forall k :: 0 <= k < |rs| && rs[k].Done? ==> rs[k].mem.size == requests[k].size
    ensures forall k :: 0 <= k < |rs| && rs[k].Failed? ==> requests[k].grant.Refused?
    ensures forall bo :: bo in old(p.bos + p.bigBos) && old(p.Idle(bo)) ==> p.Idle(bo)
    ensures forall k, bo :: 0 <= k < |rs| && rs[k].Done? && bo in old(p.bos + p.bigBos) && old(p.Idle(bo)) ==>
              rs[k].mem.bo != bo
  {
    hide Sane, Pool.Valid, Given, Fits, Separate, Disjoint, Distinct;
    rs := [];
    for k := 0 to |requests|
      invariant Member(p, pools) && |rs| == k && p.live == old(p.live) + Pieces(rs)
      invariant old(p.bos) <= p.bos && old(p.bigBos) <= p.bigBos
      invariant forall j :: 0 <= j < k && rs[j].Done? ==> rs[j].mem.size == requests[j].size
      invariant forall j :: 0 <= j < k && rs[j].Failed? ==> requests[j].grant.Refused?
      invariant forall bo :: bo in old(p.bos + p.bigBos) && old(p.Idle(bo)) ==> p.Idle(bo)
      invariant forall j, bo :: 0 <= j < k && rs[j].Done? && bo in old(p.bos + p.bigBos) && old(p.Idle(bo)) ==>
                  rs[j].mem.bo != bo
    {
      var r := AllocMem(p, requests[k].size, requests[k].alignment, requests[k].grant, pools);
      PiecesNext(rs, r);
      rs := rs + [r];
    }
  }

  /** Preallocating a buffer object of exactly the slab size is in vain: nothing that is allocated before the pool
      is reset comes out of it. */
  method InitAndAllocate(slabSize: nat, pageSize: nat, boPool: BoPool?, bigBoPool: BoPool?, prealloc: bool,
                         grant: Grant, requests: seq<Request>, ghost pools: set<Pool>)
    returns (p: Pool, ghost pre: seq<Bo>, rs: seq<Result>)
    requires pageSize > 0 && Sane(pools, boPool, bigBoPool, slabSize)
    requires forall k :: 0 <= k < |requests| ==> requests[k].alignment > 0
    modifies boPool, bigBoPool
    ensures fresh(p) && Member(p, pools + {p}) && |rs| == |requests| && p.live == Pieces(rs)
    ensures (forall bo :: bo in pre ==> bo in p.bos + p.bigBos) && (prealloc && grant.Granted? ==> |pre| == 1)
    ensures forall k, bo :: 0 <= k < |rs| && rs[k].Done? && bo in pre && bo.size == slabSize ==> rs[k].mem.bo != bo
  {
    hide Sane, Pool.Valid, Pool.Idle, Separate, Distinct, BackingSize;
    p := Init(slabSize, pageSize, boPool, bigBoPool, prealloc, grant, pools);
    pre := p.bos + p.bigBos;
    PoolCount(p, pools + {p});
    rs := AllocMany(p, requests, pools + {p});
    assert p.live == [] + Pieces(rs) == Pieces(rs);
  }

  lemma PoolCount(p: Pool, pools: set<Pool>)
    requires Member(p, pools)
    ensures p.boCount == |p.bos + p.bigBos|
  {
  }
}
