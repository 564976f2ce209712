/** Singly linked lists in GPU memory: the code that appends a node, and the loop that visits all nodes. */
module Lists {
  import opened Isa
  import opened Structured
  import Arith
  import Careful
  import Preservation
  import Stores
  import Tracker

  // ----- Lists in memory ------------------------------------------------------------------------------

  function Word64(mem: map<nat, Word>, a: nat): (v: nat)
    ensures v < W64
  {
    Cell(mem, a) + W32 * Cell(mem, a + 4)
  }

  /** `m` and `n` bytes at `a` and `b` do not overlap. */
  predicate Apart(a: nat, m: nat, b: nat, n: nat) {
    a + m <= b || b + n <= a
  }

  /** The node that comes after number `k`, 0 at the end. */
  function Following(nodes: seq<nat>, k: nat): nat {
    if k + 1 < |nodes| then nodes[k + 1] else 0
  }

  /** The `next` fields, at offset `off` of the nodes, link the nodes in order. */
  ghost predicate Chain(mem: map<nat, Word>, off: nat, nodes: seq<nat>) {
    forall k :: 0 <= k < |nodes| ==>
        && nodes[k] != 0 && nodes[k] + off + 8 <= W64
        && Word64(mem, nodes[k] + off) == Following(nodes, k)
  }

  /** A list with its head and tail pointers at `base`; the tail of an empty list means nothing. No two of
      its fields overlap. */
  ghost predicate IsList(mem: map<nat, Word>, base: nat, off: nat, nodes: seq<nat>) {
    && base + 16 <= W64 && Chain(mem, off, nodes)
    && Word64(mem, base) == (if nodes == [] then 0 else nodes[0])
    && (nodes != [] ==> Word64(mem, base + 8) == nodes[|nodes| - 1])
    && (forall k :: 0 <= k < |nodes| ==> Apart(base, 16, nodes[k] + off, 8))
    && forall j, k :: 0 <= j < k < |nodes| ==> Apart(nodes[j] + off, 8, nodes[k] + off, 8)
  }

  /** A node that is in no list yet: its `next` field is 0. */
  ghost predicate Unlisted(mem: map<nat, Word>, base: nat, off: nat, nodes: seq<nat>, node: nat) {
    && node != 0 && node + off + 8 <= W64 && Word64(mem, node + off) == 0
    && Apart(base, 16, node + off, 8) && forall k :: 0 <= k < |nodes| ==> Apart(nodes[k] + off, 8, node + off, 8)
  }

  // ----- Appending ------------------------------------------------------------------------------------

  const TWO := [true, true]
  const FOUR := [true, true, true, true]

  /** cs_single_link_list_add_tail; `ht` is the first of the four registers for head and tail. */
  function AddTail(listBase: Reg, listOffset: int, node: Reg, off: nat, ht: Reg): Stmt {
    Stmt.Seq(Op(Load(ht, listBase, FOUR, listOffset)),
    Stmt.Seq(IfElse(Equal, Val(ht, true), Op(AddImm64(ht, node, 0)), Op(Store(node, ht + 2, TWO, off))),
    Stmt.Seq(Op(AddImm64(ht + 2, node, 0)),
    Stmt.Seq(Op(Store(ht, listBase, FOUR, listOffset)), FlushStores))))
  }

  lemma LoadFour(regs: map<Reg, Word>, mem: map<nat, Word>, b: Reg, a: nat)
    ensures var r := LoadRow(regs, mem, b, FOUR, a);
            && Get64(r, b) == Word64(mem, a) && Get64(r, b + 2) == Word64(mem, a + 8)
            && forall q: Reg :: !(b <= q < b + 4) ==> Get(r, q) == Get(regs, q)
  {
    assert FOUR[1..] == [true, true, true] && FOUR[1..][1..] == [true, true] && FOUR[1..][1..][1..] == [true]
        && FOUR[1..][1..][1..][1..] == [];
    assert LoadRow(regs, mem, b, FOUR, a)
        == regs[b := Cell(mem, a)][b + 1 := Cell(mem, a + 4)][b + 2 := Cell(mem, a + 8)][b + 3 := Cell(mem, a + 12)];
  }

  lemma StoreTwo(mem: map<nat, Word>, regs: map<Reg, Word>, b: Reg, a: nat)
    ensures StoreRow(mem, regs, b, TWO, a) == mem[a := Get(regs, b)][a + 4 := Get(regs, b + 1)]
    ensures Word64(StoreRow(mem, regs, b, TWO, a), a) == Get64(regs, b)
    ensures forall x: nat :: Apart(a, 8, x, 8) ==> Word64(StoreRow(mem, regs, b, TWO, a), x) == Word64(mem, x)
    ensures forall x: nat :: Apart(a, 8, x, 4) ==> Cell(StoreRow(mem, regs, b, TWO, a), x) == Cell(mem, x)
  {
    assert TWO[1..] == [true] && TWO[1..][1..] == [];
  }

  lemma StoreFour(mem: map<nat, Word>, regs: map<Reg, Word>, b: Reg, a: nat)
    ensures var m := StoreRow(mem, regs, b, FOUR, a);
            && Word64(m, a) == Get64(regs, b) && Word64(m, a + 8) == Get64(regs, b + 2)
            && (forall x: nat :: Apart(a, 16, x, 8) ==> Word64(m, x) == Word64(mem, x))
            && (forall x: nat :: Apart(a, 16, x, 4) ==> Cell(m, x) == Cell(mem, x))
  {
    assert FOUR[1..] == [true, true, true] && FOUR[1..][1..] == [true, true] && FOUR[1..][1..][1..] == [true]
        && FOUR[1..][1..][1..][1..] == [];
    assert StoreRow(mem, regs, b, FOUR, a)
        == mem[a := Get(regs, b)][a + 4 := Get(regs, b + 1)][a + 8 := Get(regs, b + 2)][a + 12 := Get(regs, b + 3)];
  }

  /** The memory once a node has been appended. */
  ghost predicate Appends(mem: map<nat, Word>, now: map<nat, Word>, base: nat, off: nat, nodes: seq<nat>, node: nat) {
    && Word64(now, base) == (if nodes == [] then node else nodes[0]) && Word64(now, base + 8) == node
    && (nodes != [] ==> Word64(now, nodes[|nodes| - 1] + off) == node)
    && (forall k :: 0 <= k < |nodes| - 1 ==> Word64(now, nodes[k] + off) == Word64(mem, nodes[k] + off))
    && Word64(now, node + off) == Word64(mem, node + off)
  }

  lemma AppendsNode(mem: map<nat, Word>, now: map<nat, Word>, base: nat, off: nat, nodes: seq<nat>, node: nat)
    requires IsList(mem, base, off, nodes) && Unlisted(mem, base, off, nodes, node)
    requires Appends(mem, now, base, off, nodes, node)
    ensures IsList(now, base, off, nodes + [node])
  {
    hide Word64, Following, Apart;
    var all := nodes + [node];
    forall k | 0 <= k < |all| ensures all[k] != 0 && all[k] + off + 8 <= W64
        && Word64(now, all[k] + off) == Following(all, k) {
      FollowingGrows(nodes, node, k);
    }
  }

  lemma FollowingGrows(nodes: seq<nat>, node: nat, k: nat)
    requires k <= |nodes|
    ensures Following(nodes + [node], k)
         == if k == |nodes| then 0 else if k == |nodes| - 1 then node else Following(nodes, k)
  {
  }

  /** Everything but the list's own words is as before. */
  ghost predicate ElsewhereSame(mem: map<nat, Word>, now: map<nat, Word>, base: nat, off: nat, nodes: seq<nat>) {
    forall x: nat :: Apart(base, 16, x, 4) && (nodes != [] ==> Apart(nodes[|nodes| - 1] + off, 8, x, 4)) ==>
            Cell(now, x) == Cell(mem, x)
  }

  /** The registers the code uses do not overlap. */
  predicate OwnRegs(listBase: Reg, node: Reg, ht: Reg) {
    && (listBase + 1 < ht || ht + 3 < listBase) && (node + 1 < ht || ht + 3 < node)
  }

  /** Head and tail, after the branch: the node is the head of an empty list, and follows the last node of any other. */
  lemma Hook(c: Core, listBase: Reg, listOffset: int, node: Reg, off: nat, ht: Reg, base: nat, nodes: seq<nat>,
             fuel: nat) returns (d: Core)
    requires OwnRegs(listBase, node, ht) && base == Address(c.regs, listBase, listOffset)
    requires IsList(c.mem, base, off, nodes)
    ensures var c1 := ExecOp(Load(ht, listBase, FOUR, listOffset), c);
            Exec(IfElse(Equal, Val(ht, true), Op(AddImm64(ht, node, 0)), Op(Store(node, ht + 2, TWO, off))),
                 fuel, c1) == Done(d)
    ensures var n := Get64(c.regs, node);
            && Get64(d.regs, ht) == (if nodes == [] then n else nodes[0]) && d.log == c.log
            && d.mem == (if nodes == [] then c.mem else StoreRow(c.mem, c.regs, node, TWO, nodes[|nodes| - 1] + off))
            && forall q: Reg :: !(ht <= q < ht + 4) ==> Get(d.regs, q) == Get(c.regs, q)
  {
    hide LoadRow, StoreRow, Word64, IsList;
    var c1 := ExecOp(Load(ht, listBase, FOUR, listOffset), c);
    LoadFour(c.regs, c.mem, ht, base);
    SamePair(c.regs, c1.regs, node, ht);
    ListEnds(c.mem, base, off, nodes);
    if nodes == [] {
      d := ExecOp(AddImm64(ht, node, 0), c1);
      HookFirst(c1, node, ht);
    } else {
      var last := nodes[|nodes| - 1];
      d := ExecOp(Store(node, ht + 2, TWO, off), c1);
      assert Address(c1.regs, ht + 2, off) == last + off;
      StoreTwo(c.mem, c1.regs, node, last + off);
      StoreTwo(c.mem, c.regs, node, last + off);
    }
  }

  /** What is in the two pointers. */
  lemma ListEnds(mem: map<nat, Word>, base: nat, off: nat, nodes: seq<nat>)
    requires IsList(mem, base, off, nodes)
    ensures Word64(mem, base) == if nodes == [] then 0 else nodes[0]
    ensures nodes != [] ==>
             && nodes[0] != 0 && Word64(mem, base + 8) == nodes[|nodes| - 1]
             && nodes[|nodes| - 1] + off < W64
  {
    hide Word64;
  }

  lemma HookFirst(c: Core, node: Reg, ht: Reg)
    ensures var d := ExecOp(AddImm64(ht, node, 0), c);
            && Get64(d.regs, ht) == Get64(c.regs, node) && d.log == c.log && d.mem == c.mem
            && forall q: Reg :: q != ht && q != ht + 1 ==> Get(d.regs, q) == Get(c.regs, q)
  {
    Arith.PutGet(c.regs, ht, Get64(c.regs, node));
    assert (Get64(c.regs, node) + 0) % W64 == Get64(c.regs, node);
  }

  lemma SamePair(a: map<Reg, Word>, b: map<Reg, Word>, r: Reg, ht: Reg)
    requires (r + 1 < ht || ht + 3 < r) && forall q: Reg :: !(ht <= q < ht + 4) ==> Get(b, q) == Get(a, q)
    ensures Get64(b, r) == Get64(a, r) && Get(b, r) == Get(a, r) && Get(b, r + 1) == Get(a, r + 1)
  {
  }

  /** Tail and both pointers back to memory. */
  lemma WriteBack(c: Core, listBase: Reg, listOffset: int, node: Reg, ht: Reg) returns (d: Core)
    requires OwnRegs(listBase, node, ht)
    ensures d == ExecOp(Store(ht, listBase, FOUR, listOffset), ExecOp(AddImm64(ht + 2, node, 0), c))
    ensures d.log == c.log && (forall q: Reg :: !(ht <= q < ht + 4) ==> Get(d.regs, q) == Get(c.regs, q))
    ensures var base := Address(c.regs, listBase, listOffset);
            && Word64(d.mem, base) == Get64(c.regs, ht) && Word64(d.mem, base + 8) == Get64(c.regs, node)
            && (forall x: nat :: Apart(base, 16, x, 8) ==> Word64(d.mem, x) == Word64(c.mem, x))
            && forall x: nat :: Apart(base, 16, x, 4) ==> Cell(d.mem, x) == Cell(c.mem, x)
  {
    hide StoreRow, Word64;
    var c1 := ExecOp(AddImm64(ht + 2, node, 0), c);
    Arith.PutGet(c.regs, ht + 2, Get64(c.regs, node));
    assert (Get64(c.regs, node) + 0) % W64 == Get64(c.regs, node);
    d := ExecOp(Store(ht, listBase, FOUR, listOffset), c1);
    StoreFour(c.mem, c1.regs, ht, Address(c.regs, listBase, listOffset));
  }

  /** cs_single_link_list_add_tail appends exactly the node, to empty and other lists alike: it is the last
      of the list, head and tail are right, and nothing else in memory has changed. */
  lemma AddTailAppends(c: Core, listBase: Reg, listOffset: int, node: Reg, off: nat, ht: Reg, nodes: seq<nat>,
                       fuel: nat) returns (d: Core)
    requires OwnRegs(listBase, node, ht)
    requires var base := Address(c.regs, listBase, listOffset);
             IsList(c.mem, base, off, nodes) && Unlisted(c.mem, base, off, nodes, Get64(c.regs, node))
    ensures Exec(AddTail(listBase, listOffset, node, off, ht), fuel, c) == Done(d)
    ensures var base := Address(c.regs, listBase, listOffset);
            && IsList(d.mem, base, off, nodes + [Get64(c.regs, node)])
            && ElsewhereSame(c.mem, d.mem, base, off, nodes) && d.log == c.log
            && forall q: Reg :: !(ht <= q < ht + 4) ==> Get(d.regs, q) == Get(c.regs, q)
  {
    hide LoadRow, StoreRow, Word64, ExecOp, Exec, Address, Following;
    var base, n := Address(c.regs, listBase, listOffset), Get64(c.regs, node);
    var c2 := Hook(c, listBase, listOffset, node, off, ht, base, nodes, fuel);
    SamePair(c.regs, c2.regs, listBase, ht);
    SamePair(c.regs, c2.regs, node, ht);
    SameAddress(c.regs, c2.regs, listBase, listOffset);
    d := WriteBack(c2, listBase, listOffset, node, ht);
    AddTailRuns(c, c2, listBase, listOffset, node, off, ht, fuel);
    HookedMemory(c.mem, c2.mem, d.mem, c.regs, node, base, off, nodes, n);
    AppendsNode(c.mem, d.mem, base, off, nodes, n);
  }

  lemma SameAddress(a: map<Reg, Word>, b: map<Reg, Word>, r: Reg, offset: int)
    requires Get64(b, r) == Get64(a, r)
    ensures Address(b, r, offset) == Address(a, r, offset)
  {
  }

  lemma AddTailRuns(c: Core, c2: Core, listBase: Reg, listOffset: int, node: Reg, off: nat, ht: Reg, fuel: nat)
    requires Exec(IfElse(Equal, Val(ht, true), Op(AddImm64(ht, node, 0)), Op(Store(node, ht + 2, TWO, off))), fuel,
                  ExecOp(Load(ht, listBase, FOUR, listOffset), c)) == Done(c2)
    ensures Exec(AddTail(listBase, listOffset, node, off, ht), fuel, c)
         == Done(ExecOp(Store(ht, listBase, FOUR, listOffset), ExecOp(AddImm64(ht + 2, node, 0), c2)))
  {
    hide ExecOp;
    var c3 := ExecOp(AddImm64(ht + 2, node, 0), c2);
    var last := Stmt.Seq(Op(Store(ht, listBase, FOUR, listOffset)), FlushStores);
    assert Exec(FlushStores, fuel, ExecOp(Store(ht, listBase, FOUR, listOffset), c3))
            == Done(ExecOp(Store(ht, listBase, FOUR, listOffset), c3));
    assert Exec(last, fuel, c3) == Done(ExecOp(Store(ht, listBase, FOUR, listOffset), c3));
    assert Exec(Stmt.Seq(Op(AddImm64(ht + 2, node, 0)), last), fuel, c2) == Exec(last, fuel, c3);
  }

  /** From the hook and the write-back to the whole list. */
  lemma HookedMemory(mem: map<nat, Word>, mid: map<nat, Word>, now: map<nat, Word>, regs: map<Reg, Word>, node: Reg,
                     base: nat, off: nat, nodes: seq<nat>, n: nat)
    requires IsList(mem, base, off, nodes) && Unlisted(mem, base, off, nodes, n) && n == Get64(regs, node)
    requires mid == if nodes == [] then mem else StoreRow(mem, regs, node, TWO, nodes[|nodes| - 1] + off)
    requires Word64(now, base) == (if nodes == [] then n else nodes[0]) && Word64(now, base + 8) == n
    requires (forall x: nat :: Apart(base, 16, x, 8) ==> Word64(now, x) == Word64(mid, x))
    requires forall x: nat :: Apart(base, 16, x, 4) ==> Cell(now, x) == Cell(mid, x)
    ensures Appends(mem, now, base, off, nodes, n) && ElsewhereSame(mem, now, base, off, nodes)
  {
    hide StoreRow, Word64, Following, Cell;
    if nodes != [] { StoreTwo(mem, regs, node, nodes[|nodes| - 1] + off); }
  }

  // ----- Visiting all nodes ---------------------------------------------------------------------------

  /** cs_single_link_list_for_each_from, around any body. */
  function ForEach(current: Reg, off: int, body: Stmt): Stmt {
    While(NEqual, Val(current, true), Stmt.Seq(body, Op(Load(current, current, TWO, off))))
  }

  /** One round: the body, and on to the next node. */
  function Round(current: Reg, off: int, body: Stmt, fuel: nat, c: Core): Core {
    ExecOp(Load(current, current, TWO, off), Exec(body, fuel, c).core)
  }

  function Rounds(current: Reg, off: int, body: Stmt, fuel: nat, n: nat, c: Core): Core
    decreases n
  {
    if n == 0 then c else Rounds(current, off, body, fuel, n - 1, Round(current, off, body, fuel, c))
  }

  /** From this state, the body comes to its end, and leaves the register with the node, and the links, alone. */
  ghost predicate Gentle(current: Reg, off: nat, body: Stmt, fuel: nat, nodes: seq<nat>, c: Core) {
    var d := Exec(body, fuel, c).core;
    && Exec(body, fuel, c).Done? && Get64(d.regs, current) == Get64(c.regs, current)
    && forall k :: 0 <= k < |nodes| ==> Word64(d.mem, nodes[k] + off) == Word64(c.mem, nodes[k] + off)
  }

  /** So it is in every round. */
  ghost predicate Neutral(current: Reg, off: nat, body: Stmt, fuel: nat, nodes: seq<nat>, c: Core) {
    forall n :: 0 <= n < |nodes| ==> Gentle(current, off, body, fuel, nodes, Rounds(current, off, body, fuel, n, c))
  }

  lemma NeutralRest(current: Reg, off: nat, body: Stmt, fuel: nat, nodes: seq<nat>, c: Core)
    requires nodes != [] && Neutral(current, off, body, fuel, nodes, c)
    ensures Gentle(current, off, body, fuel, nodes, c)
    ensures Neutral(current, off, body, fuel, nodes[1..], Round(current, off, body, fuel, c))
  {
    hide Round, Word64, Get64;
    assert Rounds(current, off, body, fuel, 0, c) == c;
    forall n | 0 <= n < |nodes[1..]| ensures Gentle(current, off, body, fuel, nodes[1..],
                                                    Rounds(current, off, body, fuel, n,
                                                           Round(current, off, body, fuel, c))) {
      assert Gentle(current, off, body, fuel, nodes, Rounds(current, off, body, fuel, n + 1, c));
      assert forall k :: 0 <= k < |nodes[1..]| ==> nodes[1..][k] == nodes[k + 1];
    }
  }

  lemma ChainKept(mem: map<nat, Word>, now: map<nat, Word>, off: nat, nodes: seq<nat>)
    requires Chain(mem, off, nodes) && forall k :: 0 <= k < |nodes| ==>
                 Word64(now, nodes[k] + off) == Word64(mem, nodes[k] + off)
    ensures Chain(now, off, nodes)
  {
    hide Word64, Following;
  }

  /** The rest of a list is a list. */
  lemma ChainRest(mem: map<nat, Word>, off: nat, nodes: seq<nat>)
    requires Chain(mem, off, nodes) && nodes != []
    ensures Chain(mem, off, nodes[1..]) && Word64(mem, nodes[0] + off) == if |nodes| > 1 then nodes[1] else 0
  {
    hide Word64, Following;
    var rest := nodes[1..];
    forall k | 0 <= k < |rest| ensures rest[k] != 0 && rest[k] + off + 8 <= W64
        && Word64(mem, rest[k] + off) == Following(rest, k) {
      FollowingRest(nodes, k);
    }
    FollowingRest(nodes, 0);
  }

  lemma FollowingRest(nodes: seq<nat>, k: nat)
    requires nodes != []
    ensures Following(nodes[1..], k) == Following(nodes, k + 1)
    ensures Following(nodes, 0) == if |nodes| > 1 then nodes[1] else 0
  {
  }

  lemma LoadTwo(regs: map<Reg, Word>, mem: map<nat, Word>, b: Reg, a: nat)
    ensures Get64(LoadRow(regs, mem, b, TWO, a), b) == Word64(mem, a)
  {
    assert TWO[1..] == [true] && TWO[1..][1..] == [];
    assert LoadRow(regs, mem, b, TWO, a) == regs[b := Cell(mem, a)][b + 1 := Cell(mem, a + 4)];
  }

  /** A round starts with a node in the register and ends with the one after it. */
  lemma RoundMoves(current: Reg, off: nat, body: Stmt, fuel: nat, nodes: seq<nat>, c: Core)
    requires nodes != [] && Chain(c.mem, off, nodes) && Gentle(current, off, body, fuel, nodes, c)
    requires Get64(c.regs, current) == nodes[0]
    ensures var d := Round(current, off, body, fuel, c);
            Chain(d.mem, off, nodes[1..]) && Get64(d.regs, current) == Head(nodes[1..])
  {
    hide Word64, LoadRow, Following, Get64;
    var c1 := Exec(body, fuel, c).core;
    ChainKept(c.mem, c1.mem, off, nodes);
    ChainRest(c1.mem, off, nodes);
    At(c1.regs, current, off, nodes[0]);
    LoadTwo(c1.regs, c1.mem, current, nodes[0] + off);
  }

  lemma At(regs: map<Reg, Word>, r: Reg, off: nat, a: nat)
    requires Get64(regs, r) == a && a + off < W64
    ensures Address(regs, r, off) == a + off
  {
  }

  function Head(nodes: seq<nat>): nat {
    if nodes == [] then 0 else nodes[0]
  }

  /** The loop goes through the list once, in order, and stops: with as many rounds as there are nodes, the
      one for node `k` starting with that node in the register. */
  lemma {:induction false} VisitsAll(current: Reg, off: nat, body: Stmt, fuel: nat, nodes: seq<nat>, c: Core)
    requires Chain(c.mem, off, nodes) && Neutral(current, off, body, fuel, nodes, c)
    requires Get64(c.regs, current) == Head(nodes)
    ensures Exec(ForEach(current, off, body), fuel + |nodes|, c) == Done(Rounds(current, off, body, fuel, |nodes|, c))
    ensures Get64(Rounds(current, off, body, fuel, |nodes|, c).regs, current) == 0
    ensures forall k :: 0 <= k < |nodes| ==> Get64(Rounds(current, off, body, fuel, k, c).regs, current) == nodes[k]
    decreases |nodes|
  {
    hide Neutral, Gentle, Chain, Round, Get64, Signed64;
    NotZero(c, current);
    if nodes != [] {
      HeadNotZero(c.mem, off, nodes);
      NeutralRest(current, off, body, fuel, nodes, c);
      RoundMoves(current, off, body, fuel, nodes, c);
      LoopsOnce(current, off, body, fuel, |nodes|, nodes, c);
      var d := Round(current, off, body, fuel, c);
      VisitsAll(current, off, body, fuel, nodes[1..], d);
      forall k | 0 <= k < |nodes| ensures Get64(Rounds(current, off, body, fuel, k, c).regs, current) == nodes[k] {
        if k > 0 { assert Rounds(current, off, body, fuel, k, c) == Rounds(current, off, body, fuel, k - 1, d)
                  && nodes[k] == nodes[1..][k - 1]; }
      }
    }
  }

  lemma HeadNotZero(mem: map<nat, Word>, off: nat, nodes: seq<nat>)
    requires Chain(mem, off, nodes) && nodes != []
    ensures nodes[0] != 0
  {
  }

  lemma NotZero(c: Core, r: Reg)
    ensures Test(NEqual, Val(r, true), c) <==> Get64(c.regs, r) != 0
  {
  }

  /** Going round once leaves the loop as it would be entered. */
  lemma LoopsOnce(current: Reg, off: nat, body: Stmt, fuel: nat, n: nat, nodes: seq<nat>, c: Core)
    requires n > 0 && Test(NEqual, Val(current, true), c) && Gentle(current, off, body, fuel, nodes, c)
    ensures Exec(ForEach(current, off, body), fuel + n, c)
         == Exec(ForEach(current, off, body), fuel + n - 1, Round(current, off, body, fuel, c))
  {
    hide Test, ExecOp;
    var step := Op(Load(current, current, TWO, off));
    var d, all := Round(current, off, body, fuel, c), fuel + n;
    MoreFuel(body, fuel, all, c);
    assert Exec(step, all, Exec(body, all, c).core) == Done(d);
    assert Exec(Stmt.Seq(body, step), all, c) == Done(d);
    assert ExecLoop(NEqual, Val(current, true), Stmt.Seq(body, step), all, c)
        == if !Test(NEqual, Val(current, true), d) then Done(d)
            else ExecLoop(NEqual, Val(current, true), Stmt.Seq(body, step), all - 1, d);
  }

  // ----- The tracker ------------------------------------------------------------------------------------

  /** Both keep to what the tracker needs, whatever else is in flight: the pairs they test are loaded as a whole. */
  lemma AddTailHeeds(ls: nat, listBase: Reg, listOffset: int, node: Reg, off: nat, ht: Reg, fly: set<Reg>)
    ensures Careful.Heeds(ls, AddTail(listBase, listOffset, node, off, ht), fly, {ht})
  {
    var both := IfElse(Equal, Val(ht, true), Op(AddImm64(ht, node, 0)), Op(Store(node, ht + 2, TWO, off)));
    RowHas(ht, FOUR, 0);
    RowHas(ht, FOUR, 1);
    forall i: Instr, f: set<Reg> | !i.Load? ensures Careful.Heeds(ls, Op(i), f, {ht}) {}
    forall f: set<Reg> ensures Careful.Heeds(ls, both, f, {ht}) { HeedsElse(ls, both, f, ht); }
    forall a: Stmt, b: Stmt, f: set<Reg> | Careful.Heeds(ls, a, f, {ht})
        && Careful.Heeds(ls, b, Careful.Flying(ls, a, f), {ht})
      ensures Careful.Heeds(ls, Stmt.Seq(a, b), f, {ht}) {}
    forall f: set<Reg> ensures Careful.Heeds(ls, FlushStores, f, {ht}) {}
  }

  lemma RowHas(base: Reg, mask: seq<bool>, i: nat)
    requires i < |mask| && mask[i]
    ensures base + i in Row(base, mask)
  {
  }

  lemma HeedsElse(ls: nat, s: Stmt, fly: set<Reg>, r: Reg)
    requires s.IfElse? && s.val == Val(r, true) && s.thn.Op? && s.els.Op? && !s.thn.i.Load? && !s.els.i.Load?
    ensures Careful.Heeds(ls, s, fly, {r})
  {
    assert Careful.NoIf(s.els);
  }

  /** The code that appends a node leaves no store in flight, on either way through it: who learns that the list has
      grown finds the node in memory. */
  lemma AddTailFlushes(ls: nat, listBase: Reg, listOffset: int, node: Reg, off: nat, ht: Reg, g: Ctx, head: Ls,
                       entry: bool, pcs: seq<nat>)
    requires entry ==> g.tr.stores
    requires var p := Preservation.Finish(Gen(ls, AddTail(listBase, listOffset, node, off, ht), g, head).code);
             Tracker.Path(p, pcs) && pcs[|pcs| - 1] == |p|
    ensures var p := Preservation.Finish(Gen(ls, AddTail(listBase, listOffset, node, off, ht), g, head).code);
            !Stores.StoreInFlight(ls, p, pcs, entry)
  {
    hide Gen, Preservation.Finish, Tracker.Path, Stores.StoreInFlight;
    var s := AddTail(listBase, listOffset, node, off, ht);
    var load, both := Op(Load(ht, listBase, FOUR, listOffset)),
                      IfElse(Equal, Val(ht, true), Op(AddImm64(ht, node, 0)), Op(Store(node, ht + 2, TWO, off)));
    var rest := Stmt.Seq(Op(AddImm64(ht + 2, node, 0)), Stmt.Seq(Op(Store(ht, listBase, FOUR, listOffset)),
                                                                  FlushStores));
    assert s == Stmt.Seq(load, Stmt.Seq(both, rest));
    LoadedPair(ls, listBase, listOffset, ht, g, head);
    HookKept(ls, ht, node, off, Gen(ls, load, g, head).ctx, head);
    FlushedLast(ls, load, both, Op(AddImm64(ht + 2, node, 0)), Op(Store(ht, listBase, FOUR, listOffset)), g, head);
    Stores.StoresTracked(ls, s, g, head, entry, pcs);
  }

  lemma LoadedPair(ls: nat, listBase: Reg, listOffset: int, ht: Reg, g: Ctx, head: Ls)
    ensures var tr := Gen(ls, Op(Load(ht, listBase, FOUR, listOffset)), g, head).ctx.tr;
            ht in tr.loads && ht + 1 in tr.loads
  {
    RowHas(ht, FOUR, 0);
    RowHas(ht, FOUR, 1);
  }

  lemma HookKept(ls: nat, ht: Reg, node: Reg, off: nat, g: Ctx, head: Ls)
    requires ht in g.tr.loads && ht + 1 in g.tr.loads
    ensures var s := IfElse(Equal, Val(ht, true), Op(AddImm64(ht, node, 0)), Op(Store(node, ht + 2, TWO, off)));
            WellFormed(s, false, false) && Stores.StoresKept(ls, s, g, head)
  {
    hide GenBranch;
    var p := GenBranch(ls, End, NEqual, Val(ht, true), g.tr);
    var x := Gen(ls, Op(AddImm64(ht, node, 0)), Ctx(p.tr, g.ifLs, false), head);
    Careful.PendingKept(ls, Op(Store(node, ht + 2, TWO, off)), ElseCtx(p, x), head);
  }

  lemma FlushedLast(ls: nat, a: Stmt, b: Stmt, c: Stmt, d: Stmt, g: Ctx, head: Ls)
    requires a.Op? && c.Op? && d.Op? && Plain(a.i) && Plain(c.i) && Plain(d.i) && WellFormed(b, false, false)
    requires Stores.StoresKept(ls, b, Gen(ls, a, g, head).ctx, head)
    ensures var s := Stmt.Seq(a, Stmt.Seq(b, Stmt.Seq(c, Stmt.Seq(d, FlushStores))));
            && WellFormed(s, false, false) && Stores.StoresKept(ls, s, g, head) && !Gen(ls, s, g, head).ctx.tr.stores
  {
    hide Gen, Stores.StoresKept, WellFormed;
    var x := Gen(ls, a, g, head);
    var y := Gen(ls, b, x.ctx, head);
    var z := Gen(ls, c, y.ctx, head);
    var last := Stmt.Seq(d, FlushStores);
    var tail := Stmt.Seq(c, last);
    OpKept(ls, a, g, head);
    OpKept(ls, c, y.ctx, head);
    OpKept(ls, d, z.ctx, head);
    FlushKept(ls, Gen(ls, d, z.ctx, head).ctx, head);
    BothKept(ls, d, FlushStores, z.ctx, head);
    BothKept(ls, c, last, y.ctx, head);
    BothKept(ls, b, tail, x.ctx, head);
    BothKept(ls, a, Stmt.Seq(b, tail), g, head);
  }

  lemma OpKept(ls: nat, s: Stmt, g: Ctx, head: Ls)
    requires s.Op? && Plain(s.i)
    ensures WellFormed(s, false, false) && Stores.StoresKept(ls, s, g, head)
  {
  }

  lemma FlushKept(ls: nat, g: Ctx, head: Ls)
    ensures WellFormed(FlushStores, false, false) && Stores.StoresKept(ls, FlushStores, g, head)
    ensures !Gen(ls, FlushStores, g, head).ctx.tr.stores
  {
  }

  lemma BothKept(ls: nat, a: Stmt, b: Stmt, g: Ctx, head: Ls)
    requires WellFormed(a, false, false) && WellFormed(b, false, false)
    requires Stores.StoresKept(ls, a, g, head) && Stores.StoresKept(ls, b, Gen(ls, a, g, head).ctx, head)
    ensures var s := Stmt.Seq(a, b);
            && WellFormed(s, false, false) && Stores.StoresKept(ls, s, g, head)
            && Gen(ls, s, g, head).ctx == Gen(ls, b, Gen(ls, a, g, head).ctx, head).ctx
  {
  }

  lemma ForEachHeeds(ls: nat, current: Reg, off: int, body: Stmt, fly: set<Reg>, pairs: set<Reg>)
    requires current in pairs && Careful.Whole(Row(current, TWO), pairs) && Careful.Heeds(ls, body, fly, pairs)
    ensures Careful.Heeds(ls, ForEach(current, off, body), fly, pairs)
  {
    var step := Op(Load(current, current, TWO, off));
    assert Careful.Heeds(ls, step, Careful.Flying(ls, body, fly), pairs);
    assert Careful.Heeds(ls, Stmt.Seq(body, step), fly, pairs);
  }
}
