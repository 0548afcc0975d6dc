/** The list in the heap, built by `storage_init` and used by one thread at a time. `made` are the
    nodes in the order of their allocation and `order` says how they are linked now, so the methods
    are proved against the same functions that describe the serial run of the program. */
module Storage {
  import opened ListOps
  import opened LockedList

  lemma SearchEarns(lens: seq<nat>, f: Flavor, l: seq<nat>, m: map<Counter, int>, r: map<Counter, int>)
    requires var pairs := Pairs(lens, f, l);
      r == Bump(if pairs > 0 then Bump(m, PairCount(f), pairs) else m, Iterations(f), 1)
    ensures forall k: Counter :: Value(r, k) == Value(m, k) + Earns(lens, Search(f), l, k)
  {
  }

  lemma SwapEarns(lens: seq<nat>, f: Flavor, left: nat, l: seq<nat>, m: map<Counter, int>, r: map<Counter, int>)
    requires r == if Fires(lens, Swap(f, left), l) then Bump(m, Swaps(f), 1) else m
    ensures forall k: Counter :: Value(r, k) == Value(m, k) + Earns(lens, Swap(f, left), l, k)
  {
  }

  class Node {
    /** `strlen(value)` */
    var len: nat
    var next: Node?
    /** How often the node has been given to free. */
    var freed: nat

    constructor (len: nat)
      ensures this.len == len && next == null && freed == 0
    {
      this.len := len;
      next := null;
      freed := 0;
    }
  }

  ghost predicate Distinct(made: seq<Node>) {
    forall i, j :: 0 <= i < j < |made| ==> made[i] != made[j]
  }

  /** With `nexts` by allocation, the nodes `made` are linked in `order`. */
  ghost predicate Linked(made: seq<Node>, nexts: seq<Node?>, order: seq<nat>) {
    Arrangement(order) && Chain(made, nexts, order)
  }

  ghost predicate Chain(made: seq<Node>, nexts: seq<Node?>, order: seq<nat>) {
    && |made| == |nexts| == |order|
    && (forall k :: 0 <= k < |order| ==> order[k] < |order|)
    && forall i {:trigger LinkedAt(made, nexts, order, i)} :: 0 <= i < |order| ==> LinkedAt(made, nexts, order, i)
  }

  ghost predicate LinkedAt(made: seq<Node>, nexts: seq<Node?>, order: seq<nat>, i: nat)
    requires |made| == |nexts| == |order| && i < |order|
    requires forall k :: 0 <= k < |order| ==> order[k] < |order|
  {
    if i + 1 < |order| then nexts[order[i]] == made[order[i + 1]] else nexts[order[i]] == null
  }

  /** What the three writes of an exchange behind place i make of the links. */
  function Rewired(made: seq<Node>, nexts: seq<Node?>, order: seq<nat>, i: nat): seq<Node?>
    requires |made| == |nexts| == |order| && i + 2 < |order|
    requires forall k :: 0 <= k < |order| ==> order[k] < |order|
  {
    nexts[order[i] := made[order[i + 2]]]
         [order[i + 1] := nexts[order[i + 2]]]
         [order[i + 2] := made[order[i + 1]]]
  }

  lemma RewiredAt(made: seq<Node>, nexts: seq<Node?>, order: seq<nat>, i: nat, k: nat)
    requires |made| == |nexts| == |order| && i + 2 < |order| && k < |order|
    requires forall j :: 0 <= j < |order| ==> order[j] < |order|
    requires order[i] != order[i + 1] && order[i] != order[i + 2] && order[i + 1] != order[i + 2]
    requires k != i && k != i + 1 && k != i + 2 ==>
               order[k] != order[i] && order[k] != order[i + 1] && order[k] != order[i + 2]
    requires LinkedAt(made, nexts, order, k) && LinkedAt(made, nexts, order, i + 2)
    ensures LinkedAt(made, Rewired(made, nexts, order, i), SwapAt(order, i + 1), k)
  {
  }

  lemma PlacesDiffer(order: seq<nat>, i: nat, j: nat)
    requires Arrangement(order) && i < |order| && j < |order|
    ensures order[i] < |order| && (i != j ==> order[i] != order[j])
  {
  }

  lemma RewiredLink(made: seq<Node>, nexts: seq<Node?>, order: seq<nat>, i: nat, k: nat)
    requires Linked(made, nexts, order) && i + 2 < |order| && k < |order|
    ensures LinkedAt(made, Rewired(made, nexts, order, i), SwapAt(order, i + 1), k)
  {
    PlacesDiffer(order, k, i);
    PlacesDiffer(order, k, i + 1);
    PlacesDiffer(order, k, i + 2);
    PlacesDiffer(order, i, i + 1);
    PlacesDiffer(order, i, i + 2);
    PlacesDiffer(order, i + 1, i + 2);
    assert LinkedAt(made, nexts, order, k) && LinkedAt(made, nexts, order, i + 2);
    RewiredAt(made, nexts, order, i, k);
  }

  lemma RewiredChain(made: seq<Node>, nexts: seq<Node?>, order: seq<nat>, i: nat)
    requires Linked(made, nexts, order) && i + 2 < |order|
    ensures Chain(made, Rewired(made, nexts, order, i), SwapAt(order, i + 1))
  {
    var order' := SwapAt(order, i + 1);
    forall k | 0 <= k < |order'|
      ensures order'[k] < |order'| && LinkedAt(made, Rewired(made, nexts, order, i), order', k)
    {
      RewiredLink(made, nexts, order, i, k);
    }
  }

  lemma RewiredLinks(made: seq<Node>, nexts: seq<Node?>, order: seq<nat>, i: nat)
    requires Linked(made, nexts, order) && i + 2 < |order|
    ensures Linked(made, Rewired(made, nexts, order, i), SwapAt(order, i + 1))
  {
    SwapAtArrangement(order, i + 1);
    RewiredChain(made, nexts, order, i);
  }

  /** What `swap_pairs` makes of list l for index left: it exchanges the two nodes there exactly if their
      lengths fall, rise or differ, and says whether it did. */
  ghost predicate SwapDone(lens: seq<nat>, f: Flavor, left: nat, l: seq<nat>, l': seq<nat>, swapped: bool) {
    && swapped == MustSwap(lens, f, left, l)
    && l' == (if swapped then l[left + 1 := l[left + 2]][left + 2 := l[left + 1]] else l)
  }

  lemma PastTheEnd(lens: seq<nat>, f: Flavor, left: nat, l: seq<nat>)
    requires |l| <= left + 2
    ensures SwapDone(lens, f, left, l, l, false)
  {
  }

  /** That is the serial operation. */
  lemma SwapDoneIsSerial(lens: seq<nat>, f: Flavor, left: nat, l: seq<nat>, l': seq<nat>, swapped: bool)
    requires SwapDone(lens, f, left, l, l', swapped) && forall i :: 0 <= i < |l| ==> l[i] < |lens|
    ensures l' == Apply(lens, Swap(f, left), l) && swapped == Fires(lens, Swap(f, left), l)
  {
    FiresAsItMust(lens, f, left, l);
  }

  class List {
    var first: Node?
    var size: nat
    ghost var made: seq<Node>
    ghost var order: seq<nat>

    ghost predicate Valid()
      reads this, made
    {
      && |made| == size + 1
      && Distinct(made)
      && first == made[0]
      && Linked(made, Nexts(), order)
    }

    /** The `next` fields, by order of allocation. */
    ghost function Nexts(): (r: seq<Node?>)
      reads this, made
      ensures |r| == |made|
    {
      seq(|made|, i requires 0 <= i < |made| reads this, made => made[i].next)
    }

    /** The lengths of the nodes, by order of allocation. */
    ghost function Lens(): (r: seq<nat>)
      reads this, made
      ensures |r| == |made|
    {
      seq(|made|, i requires 0 <= i < |made| reads this, made => made[i].len)
    }

    lemma LensAt(x: nat)
      requires x < |made|
      ensures Lens()[x] == made[x].len
    {
    }

    /** The node at place i points to the next one; only the last has no successor. */
    lemma NextOf(i: nat)
      requires Valid() && i < |order|
      ensures made[order[i]].next == null <==> i + 1 == |order|
      ensures i + 1 < |order| ==> made[order[i]].next == made[order[i + 1]]
    {
      assert LinkedAt(made, Nexts(), order, i);
      if i + 1 < |order| {
        var succ: Node? := made[order[i + 1]];
        assert succ != null;
      }
    }

    lemma FiresAt(f: Flavor, i: nat, cur: Node, next: Node)
      requires Valid() && i + 2 < |order|
      requires cur == made[order[i + 1]] && next == made[order[i + 2]]
      ensures Fires(Lens(), Swap(f, i), order) <==> Wants(f, cur.len, next.len)
    {
      LensAt(order[i + 1]);
      LensAt(order[i + 2]);
    }

    /** The loop of `storage_init`: append one new node for every length. */
    constructor (lens: seq<nat>)
      ensures Valid() && fresh(made)
      ensures size == |lens| && order == Fresh(size) && Lens() == [0] + lens
    {
      var head := new Node(0);
      first := head;
      size := |lens|;
      made := [head];
      order := Fresh(|lens|);
      new;
      var prev := head;
      for i := 0 to |lens|
        invariant |made| == i + 1 && made[0] == head && made[i] == prev
        invariant fresh(made) && first == head && size == |lens| && order == Fresh(|lens|)
        invariant forall k, m :: 0 <= k < m < |made| ==> made[k] != made[m]
        invariant forall k :: 0 <= k < i ==> made[k].next == made[k + 1]
        invariant made[i].next == null
        invariant head.len == 0 && forall k :: 0 < k <= i ==> made[k].len == lens[k - 1]
      {
        var cur := new Node(lens[i]);
        prev.next := cur;
        prev := cur;
        made := made + [cur];
      }
      FreshArrangement(|lens|);
      forall i | 0 <= i < |order| ensures LinkedAt(made, Nexts(), order, i) { }
      assert Lens() == [0] + lens;
    }

    /** `swap_nodes`: the three writes, on the nodes at places i, i + 1 and i + 2. */
    method SwapNodes(ghost i: nat, prev: Node, left: Node, right: Node)
      requires Distinct(made) && |made| == |order| && Arrangement(order) && i + 2 < |order|
      requires prev == made[order[i]] && left == made[order[i + 1]] && right == made[order[i + 2]]
      modifies prev`next, left`next, right`next
      ensures Nexts() == Rewired(made, old(Nexts()), order, i) && Lens() == old(Lens())
    {
      PlacesDiffer(order, i, i + 1);
      PlacesDiffer(order, i, i + 2);
      PlacesDiffer(order, i + 1, i + 2);
      prev.next := right;
      left.next := right.next;
      right.next := left;
    }

    method Exchange(ghost i: nat, prev: Node, left: Node, right: Node)
      requires Valid() && i + 2 < |order|
      requires prev == made[order[i]] && left == made[order[i + 1]] && right == made[order[i + 2]]
      modifies this`order, made
      ensures Valid() && Lens() == old(Lens()) && order == SwapAt(old(order), i + 1)
    {
      ghost var nexts, lens, was := Nexts(), Lens(), order;
      RewiredLinks(made, nexts, order, i);
      SwapNodes(i, prev, left, right);
      order := SwapAt(order, i + 1);
      assert Nexts() == Rewired(made, nexts, was, i) && Lens() == lens;
    }

    /** `swap_pairs` for a given index, run alone. An index past the end makes it return early. */
    method SwapPairs(f: Flavor, left: nat) returns (swapped: bool)
      requires Valid()
      modifies this`order, made
      ensures Valid() && Lens() == old(Lens())
      ensures SwapDone(Lens(), f, left, old(order), order, swapped)
    {
      NextOf(0);
      if first.next == null {
        PastTheEnd(Lens(), f, left, order);
        return false;
      }
      var prev, cur, next := WalkTo(left);
      if next == null {
        PastTheEnd(Lens(), f, left, order);
        return false;
      }
      swapped := SwapIfWanted(f, left, prev, cur, next);
    }

    /** The walk to the index: prev, cur and next come to the nodes at places left to left + 2, unless the list
        ends before. */
    method WalkTo(left: nat) returns (prev: Node, cur: Node, next: Node?)
      requires Valid() && 1 < |order| && first.next != null
      ensures next == null ==> |order| <= left + 2
      ensures next != null ==>
                && left + 2 < |order|
                && prev == made[order[left]] && cur == made[order[left + 1]] && next == made[order[left + 2]]
    {
      NextOf(0);
      prev := first;
      cur := first.next;
      var i := 0;
      while i < left && cur.next != null
        invariant 0 <= i <= left && i + 1 < |order|
        invariant prev == made[order[i]] && cur == made[order[i + 1]]
        decreases left - i
      {
        NextOf(i + 1);
        prev := cur;
        cur := cur.next;
        i := i + 1;
      }
      NextOf(i + 1);
      next := cur.next;
    }

    /** The comparison at the index reached, and the exchange if the lengths ask for it. */
    method SwapIfWanted(f: Flavor, ghost i: nat, prev: Node, cur: Node, next: Node) returns (swapped: bool)
      requires Valid() && i + 2 < |order|
      requires prev == made[order[i]] && cur == made[order[i + 1]] && next == made[order[i + 2]]
      modifies this`order, made
      ensures Valid() && Lens() == old(Lens())
      ensures SwapDone(Lens(), f, i, old(order), order, swapped)
    {
      FiresAt(f, i, cur, next);
      FiresAsItMust(Lens(), f, i, order);
      swapped := Wants(f, cur.len, next.len);
      if swapped { Exchange(i, prev, cur, next); }
    }

    /** One iteration of `search_pairs`, run alone. */
    method SearchPairs(f: Flavor) returns (pairs: nat)
      requires Valid()
      ensures pairs == Pairs(Lens(), f, order)
      ensures f == Asc ==> pairs == |Rises(Lens(), order)|
      ensures f == Desc ==> pairs == |Falls(Lens(), order)|
      ensures f == Equality ==> pairs == |Levels(Lens(), order)|
    {
      pairs := 0;
      NextOf(0);
      PairsAreFound(Lens(), f, order);
      if first.next == null { return; }
      var a: Node := first.next;
      ghost var k := 1;
      while a.next != null
        invariant 1 <= k < |order| && a == made[order[k]]
        invariant pairs == PairsUpTo(Lens(), f, order, k)
        decreases |order| - k
      {
        NextOf(k);
        var b := a.next;
        LensAt(order[k]);
        LensAt(order[k + 1]);
        if Hit(f, a.len, b.len) { pairs := pairs + 1; }
        a := b;
        k := k + 1;
      }
      NextOf(k);
    }

    /** One operation run alone, with its effect on the nine counters of the program. */
    method RunAlone(op: Op, counters: map<Counter, int>) returns (r: map<Counter, int>)
      requires Valid()
      modifies this`order, made
      ensures Valid() && Lens() == old(Lens())
      ensures order == Apply(Lens(), op, old(order))
      ensures forall k: Counter :: Value(r, k) == Value(counters, k) + Earns(Lens(), op, old(order), k)
    {
      match op
      case Search(f) =>
        var pairs := SearchPairs(f);
        r := if pairs > 0 then Bump(counters, PairCount(f), pairs) else counters;
        r := Bump(r, Iterations(f), 1);
        SearchEarns(Lens(), f, order, counters, r);
      case Swap(f, left) =>
        ghost var lens, l := Lens(), order;
        var swapped := SwapPairs(f, left);
        SwapDoneIsSerial(lens, f, left, l, order, swapped);
        r := if swapped then Bump(counters, Swaps(f), 1) else counters;
        SwapEarns(lens, f, left, l, counters, r);
    }

    /** The operations of a log run one at a time do to list and counters what the serial run says. */
    method RunSerially(ops: seq<Op>) returns (counters: map<Counter, int>)
      requires Valid()
      modifies this`order, made
      ensures Valid() && Lens() == old(Lens())
      ensures order == Serial(Lens(), old(order), ops)
      ensures forall k: Counter :: Value(counters, k) == SerialCount(Lens(), old(order), ops, k)
    {
      counters := map[];
      ghost var lens, l0 := Lens(), order;
      for i := 0 to |ops|
        invariant Valid() && Lens() == lens
        invariant order == Serial(lens, l0, ops[..i])
        invariant forall k: Counter :: Value(counters, k) == SerialCount(lens, l0, ops[..i], k)
      {
        assert ops[..i + 1][..i] == ops[..i];
        counters := RunAlone(ops[i], counters);
      }
      assert ops[..|ops|] == ops;
    }

    /** `storage_destroy`: frees every node once, from the first on. */
    method Destroy() returns (ghost freed: seq<Node>)
      requires Valid()
      modifies this`first, made`freed
      ensures first == null
      ensures |freed| == |made| && forall i :: 0 <= i < |freed| ==> freed[i] == made[order[i]]
      ensures forall i :: 0 <= i < |order| ==> made[order[i]].freed == old(made[order[i]].freed) + 1
    {
      freed := [];
      ghost var nexts := Nexts();
      while first != null
        invariant |made| == |order| == |nexts| && Linked(made, nexts, order) && Nexts() == nexts
        invariant |freed| <= |order| && forall i :: 0 <= i < |freed| ==> freed[i] == made[order[i]]
        invariant if |freed| < |order| then first == made[order[|freed|]] else first == null
        invariant forall i :: 0 <= i < |order| ==>
                    made[order[i]].freed == old(made[order[i]].freed) + if i < |freed| then 1 else 0
        decreases |order| - |freed|
      {
        ghost var k := |freed|;
        assert LinkedAt(made, nexts, order, k);
        assert nexts[order[k]] == first.next;
        var tmp := first.next;
        first.freed := first.freed + 1;
        freed := freed + [first];
        first := tmp;
      }
    }
  }

  /** `storage_init`: no list for n <= 0, else n nodes behind the sentinel, with the lengths drawn. */
  method StorageInit(n: int, lens: seq<nat>) returns (s: List?)
    requires n <= |lens|
    ensures s == null <==> n <= 0
    ensures s != null ==> s.Valid() && fresh(s) && s.order == Fresh(n) && s.Lens() == [0] + lens[..n]
  {
    if n <= 0 { return null; }
    s := new List(lens[..n]);
  }
}
