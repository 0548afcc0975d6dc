/** Lists of node numbers and the two operations of the program on them, one at a time.
    Node 0 is the sentinel that `storage_init` allocates first; it stays at index 0. */
module ListOps {

  /** Which of the three searchers, or of the three swappers, an operation belongs to. */
  datatype Flavor = Asc | Desc | Equality

  /** `cmp_asc`, `cmp_desc` and `cmp_equal`. */
  predicate Hit(f: Flavor, x: nat, y: nat) {
    match f
    case Asc => x < y
    case Desc => x > y
    case Equality => x == y
  }

  /** `swap_asc_func`, `swap_desc_func` and `swap_not_equal_func`. */
  predicate Wants(f: Flavor, x: nat, y: nat) {
    match f
    case Asc => x > y
    case Desc => x < y
    case Equality => x != y
  }

  /** One call of `search_pairs`' loop body, or one call of `swap_pairs`. */
  datatype Op = Search(f: Flavor) | Swap(f: Flavor, left: nat)

  /** The length of the string in node `x`. */
  function Len(lens: seq<nat>, x: nat): nat {
    if x < |lens| then lens[x] else 0
  }

  function Lengths(lens: seq<nat>, l: seq<nat>): seq<nat> {
    seq(|l|, i requires 0 <= i < |l| => Len(lens, l[i]))
  }

  function SwapAt<T>(l: seq<T>, j: nat): seq<T>
    requires j + 1 < |l|
  {
    l[j := l[j + 1]][j + 1 := l[j]]
  }

  /** Does `op`, run alone on `l`, exchange two nodes? */
  predicate Fires(lens: seq<nat>, op: Op, l: seq<nat>) {
    && op.Swap?
    && op.left + 2 < |l|
    && Wants(op.f, Len(lens, l[op.left + 1]), Len(lens, l[op.left + 2]))
  }

  /** The list that `op`, run alone, leaves behind. */
  function Apply(lens: seq<nat>, op: Op, l: seq<nat>): seq<nat> {
    if Fires(lens, op, l) then SwapAt(l, op.left + 1) else l
  }

  /** The list after running the operations of `log` one at a time. */
  function Serial(lens: seq<nat>, l0: seq<nat>, log: seq<Op>): seq<nat> {
    if log == [] then l0 else Apply(lens, log[|log| - 1], Serial(lens, l0, log[..|log| - 1]))
  }

  /** Adjacent pairs that hit among the data nodes at indices 1 to k. */
  function PairsUpTo(lens: seq<nat>, f: Flavor, l: seq<nat>, k: nat): nat
    requires k < |l|
  {
    if k < 2 then 0
    else PairsUpTo(lens, f, l, k - 1) + if Hit(f, Len(lens, l[k - 1]), Len(lens, l[k])) then 1 else 0
  }

  /** What a searcher running alone on `l` counts. */
  function Pairs(lens: seq<nat>, f: Flavor, l: seq<nat>): nat {
    if l == [] then 0 else PairsUpTo(lens, f, l, |l| - 1)
  }

  // ----- the same in lengths

  /** Where among the data nodes a longer node, a shorter one, or one of the same length follows. */
  function Rises(lens: seq<nat>, l: seq<nat>): set<nat> {
    set i: nat {:trigger l[i]} | 1 <= i && i + 1 < |l| && l[i] < |lens| && l[i + 1] < |lens| && lens[l[i]] < lens[l[i + 1]]
  }

  function Falls(lens: seq<nat>, l: seq<nat>): set<nat> {
    set i: nat {:trigger l[i]} | 1 <= i && i + 1 < |l| && l[i] < |lens| && l[i + 1] < |lens| && lens[l[i]] > lens[l[i + 1]]
  }

  function Levels(lens: seq<nat>, l: seq<nat>): set<nat> {
    set i: nat {:trigger l[i]} | 1 <= i && i + 1 < |l| && l[i] < |lens| && l[i + 1] < |lens| && lens[l[i]] == lens[l[i + 1]]
  }

  /** Where the searcher of flavor f must find a pair. */
  function Found(lens: seq<nat>, f: Flavor, l: seq<nat>): set<nat> {
    match f
    case Asc => Rises(lens, l)
    case Desc => Falls(lens, l)
    case Equality => Levels(lens, l)
  }

  lemma FoundAt(lens: seq<nat>, f: Flavor, l: seq<nat>, k: nat)
    requires 1 <= k && k + 1 < |l| && forall i :: 0 <= i < |l| ==> l[i] < |lens|
    ensures k in Found(lens, f, l) <==> Hit(f, Len(lens, l[k]), Len(lens, l[k + 1]))
  {
    assert l[k] < |lens| && l[k + 1] < |lens|;
  }

  lemma FoundInside(lens: seq<nat>, f: Flavor, l: seq<nat>)
    ensures forall i :: i in Found(lens, f, l) ==> 1 <= i && i + 1 < |l|
  {
  }

  function Under(s: set<nat>, k: nat): set<nat> {
    set i | i in s && i < k
  }

  lemma UnderGrows(s: set<nat>, k: nat)
    ensures |Under(s, k + 1)| == |Under(s, k)| + if k in s then 1 else 0
  {
    assert Under(s, k + 1) == Under(s, k) + if k in s then {k} else {};
  }

  lemma UnderAll(s: set<nat>, k: nat)
    ensures (forall i :: i in s ==> i < k) ==> Under(s, k) == s
    ensures (forall i :: i in s ==> k <= i) ==> Under(s, k) == {}
  {
  }

  lemma {:induction false} PairsUpToAreFound(lens: seq<nat>, f: Flavor, l: seq<nat>, k: nat)
    requires k < |l| && forall i :: 0 <= i < |l| ==> l[i] < |lens|
    ensures PairsUpTo(lens, f, l, k) == |Under(Found(lens, f, l), k)|
  {
    FoundInside(lens, f, l);
    if k < 2 {
      if k == 1 { UnderGrows(Found(lens, f, l), 0); }
      UnderAll(Found(lens, f, l), 0);
    } else {
      PairsUpToAreFound(lens, f, l, k - 1);
      FoundAt(lens, f, l, k - 1);
      UnderGrows(Found(lens, f, l), k - 1);
    }
  }

  /** What a searcher counts, in lengths. */
  lemma PairsAreFound(lens: seq<nat>, f: Flavor, l: seq<nat>)
    requires forall i :: 0 <= i < |l| ==> l[i] < |lens|
    ensures Pairs(lens, f, l) == |Found(lens, f, l)|
  {
    FoundInside(lens, f, l);
    if l != [] {
      PairsUpToAreFound(lens, f, l, |l| - 1);
      UnderAll(Found(lens, f, l), |l| - 1);
    } else {
      UnderAll(Found(lens, f, l), 0);
    }
  }

  /** Must the swapper of flavor f exchange the nodes at its index and the next one? */
  predicate MustSwap(lens: seq<nat>, f: Flavor, left: nat, l: seq<nat>) {
    && left + 2 < |l| && l[left + 1] < |lens| && l[left + 2] < |lens|
    && (f == Asc ==> lens[l[left + 1]] > lens[l[left + 2]])
    && (f == Desc ==> lens[l[left + 1]] < lens[l[left + 2]])
    && (f == Equality ==> lens[l[left + 1]] != lens[l[left + 2]])
  }

  lemma FiresAsItMust(lens: seq<nat>, f: Flavor, left: nat, l: seq<nat>)
    requires forall i :: 0 <= i < |l| ==> l[i] < |lens|
    ensures Fires(lens, Swap(f, left), l) <==> MustSwap(lens, f, left, l)
    ensures Apply(lens, Swap(f, left), l)
         == if MustSwap(lens, f, left, l) then l[left + 1 := l[left + 2]][left + 2 := l[left + 1]] else l
  {
  }

  /** The list that `storage_init` builds: nodes in the order of their allocation. */
  function Fresh(n: nat): (l: seq<nat>)
    ensures |l| == n + 1
  {
    seq(n + 1, i => i)
  }

  /** A list of nodes 0 to |l| - 1, each once, with the sentinel first. */
  ghost predicate Arrangement(l: seq<nat>) {
    && 1 <= |l|
    && l[0] == 0
    && (forall i :: 0 <= i < |l| ==> l[i] < |l|)
    && (forall i, j :: 0 <= i < j < |l| ==> l[i] != l[j])
    && multiset(l) == multiset(Fresh(|l| - 1))
  }

  lemma SwapAtMultiset<T>(l: seq<T>, j: nat)
    requires j + 1 < |l|
    ensures multiset(SwapAt(l, j)) == multiset(l)
  {
    assert l == l[..j] + [l[j], l[j + 1]] + l[j + 2..];
    assert SwapAt(l, j) == l[..j] + [l[j + 1], l[j]] + l[j + 2..];
  }

  lemma SwapAtArrangement(l: seq<nat>, j: nat)
    requires Arrangement(l) && 1 <= j && j + 1 < |l|
    ensures Arrangement(SwapAt(l, j))
  {
    SwapAtMultiset(l, j);
  }

  lemma ApplyArrangement(lens: seq<nat>, op: Op, l: seq<nat>)
    requires Arrangement(l)
    ensures Arrangement(Apply(lens, op, l)) && |Apply(lens, op, l)| == |l|
  {
    if Fires(lens, op, l) { SwapAtArrangement(l, op.left + 1); }
  }

  lemma FreshArrangement(n: nat)
    ensures Arrangement(Fresh(n))
  {
  }

  /** A swap inside, or wholly behind or ahead of, a window of indices keeps what the window holds. */
  lemma SwapAtSlice<T>(l: seq<T>, j: nat, lo: nat, hi: nat)
    requires j + 1 < |l| && lo <= hi <= |l|
    requires j + 1 < lo || hi <= j || (lo <= j && j + 1 < hi)
    ensures multiset(SwapAt(l, j)[lo..hi]) == multiset(l[lo..hi])
  {
    if lo <= j && j + 1 < hi {
      assert SwapAt(l, j)[lo..hi] == SwapAt(l[lo..hi], j - lo);
      SwapAtMultiset(l[lo..hi], j - lo);
    } else {
      assert SwapAt(l, j)[lo..hi] == l[lo..hi];
    }
  }

  lemma {:induction false} SerialLength(lens: seq<nat>, l0: seq<nat>, log: seq<Op>)
    ensures |Serial(lens, l0, log)| == |l0|
  {
    if log != [] { SerialLength(lens, l0, log[..|log| - 1]); }
  }

  // ----- stability: nodes of one length keep their order

  function OfLength(lens: seq<nat>, v: nat, l: seq<nat>): seq<nat> {
    if l == [] then []
    else (if Len(lens, l[0]) == v then [l[0]] else []) + OfLength(lens, v, l[1..])
  }

  lemma {:induction false} SwapAtStable(lens: seq<nat>, v: nat, l: seq<nat>, j: nat)
    requires j + 1 < |l|
    requires Len(lens, l[j]) != Len(lens, l[j + 1])
    ensures OfLength(lens, v, SwapAt(l, j)) == OfLength(lens, v, l)
  {
    var r := SwapAt(l, j);
    if j == 0 {
      assert r[1..][1..] == l[1..][1..];
    } else {
      assert r[1..] == SwapAt(l[1..], j - 1);
      SwapAtStable(lens, v, l[1..], j - 1);
    }
  }

  /** Nodes of one length stand in the order of their numbers, which is that of their allocation. */
  ghost predicate MakeOrder(lens: seq<nat>, l: seq<nat>) {
    forall i, j :: 0 <= i < j < |l| && Len(lens, l[i]) == Len(lens, l[j]) ==> l[i] < l[j]
  }

  lemma SwapAtMakeOrder(lens: seq<nat>, l: seq<nat>, k: nat)
    requires MakeOrder(lens, l) && k + 1 < |l| && Len(lens, l[k]) != Len(lens, l[k + 1])
    ensures MakeOrder(lens, SwapAt(l, k))
  {
  }

  // ----- inversions

  function Below(s: seq<nat>, x: nat): nat {
    if s == [] then 0 else (if s[0] < x then 1 else 0) + Below(s[1..], x)
  }

  /** The number of pairs i < j with s[i] > s[j]. */
  function Inversions(s: seq<nat>): nat {
    if s == [] then 0 else Below(s[1..], s[0]) + Inversions(s[1..])
  }

  lemma {:induction false} BelowSwap(s: seq<nat>, j: nat, x: nat)
    requires j + 1 < |s|
    ensures Below(SwapAt(s, j), x) == Below(s, x)
  {
    var r := SwapAt(s, j);
    if j == 0 {
      assert r[1..][1..] == s[1..][1..];
    } else {
      assert r[1..] == SwapAt(s[1..], j - 1);
      BelowSwap(s[1..], j - 1, x);
    }
  }

  function Sign(x: nat, y: nat): int {
    if x < y then 1 else if x > y then -1 else 0
  }

  /** Exchanging two neighbours changes the number of inversions by one, by the way they compare. */
  lemma {:induction false} InversionsSwap(s: seq<nat>, j: nat)
    requires j + 1 < |s|
    ensures Inversions(SwapAt(s, j)) == Inversions(s) + Sign(s[j], s[j + 1])
  {
    var r := SwapAt(s, j);
    if j == 0 {
      assert r[1..][1..] == s[1..][1..];
    } else {
      assert r[1..] == SwapAt(s[1..], j - 1);
      BelowSwap(s[1..], j - 1, s[0]);
      InversionsSwap(s[1..], j - 1);
    }
  }

  lemma {:induction false} BelowBound(s: seq<nat>, x: nat)
    ensures Below(s, x) <= |s|
  {
    if s != [] { BelowBound(s[1..], x); }
  }

  lemma {:induction false} InversionsBound(s: seq<nat>)
    ensures 2 * Inversions(s) <= |s| * (|s| - 1)
  {
    if s != [] {
      var k := |s| - 1;
      BelowBound(s[1..], s[0]);
      InversionsBound(s[1..]);
      assert (k + 1) * k == k * (k - 1) + 2 * k;
      assert 2 * Inversions(s[1..]) <= k * (k - 1);
    }
  }

  lemma {:induction false} BelowZero(s: seq<nat>, x: nat)
    ensures Below(s, x) == 0 <==> forall i :: 0 <= i < |s| ==> x <= s[i]
  {
    if s != [] {
      BelowZero(s[1..], x);
      assert forall i :: 0 < i < |s| ==> s[i] == s[1..][i - 1];
    }
  }

  /** No inversions, exactly if nothing is out of order. */
  lemma {:induction false} InversionsZero(s: seq<nat>)
    ensures Inversions(s) == 0 <==> forall i, j :: 0 <= i < j < |s| ==> s[i] <= s[j]
  {
    if s != [] {
      BelowZero(s[1..], s[0]);
      InversionsZero(s[1..]);
      assert forall i :: 0 < i < |s| ==> s[i] == s[1..][i - 1];
    }
  }

  /** Inversions among the lengths of the data nodes. */
  function Disorder(lens: seq<nat>, l: seq<nat>): nat {
    if l == [] then 0 else Inversions(Lengths(lens, l[1..]))
  }

  lemma DisorderSwap(lens: seq<nat>, l: seq<nat>, j: nat)
    requires 1 <= j && j + 1 < |l|
    ensures Disorder(lens, SwapAt(l, j)) == Disorder(lens, l) + Sign(Len(lens, l[j]), Len(lens, l[j + 1]))
  {
    var s := Lengths(lens, l[1..]);
    assert Lengths(lens, SwapAt(l, j)[1..]) == SwapAt(s, j - 1);
    InversionsSwap(s, j - 1);
  }
}
