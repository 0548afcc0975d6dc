/** The decisions of the program in plain terms: the lengths compared, the index drawn, and what the counters say about the operations of a run. */
module ListMeaning {
  import opened ListOps
  import opened Sums
  import opened Traversals
  import opened LockedList
  import opened ListSimulation
  import opened ListSteps
  import opened ListTheorems

  // ----- the serial list, operation by operation

  /** One more operation: a search leaves the serial list alone, a swap exchanges the two nodes at its index
      if it must. */
  lemma SerialListGrows(cfg: Config, ops: seq<Op>, op: Op)
    requires cfg.Valid()
    ensures var l := SerialList(cfg, ops);
      SerialList(cfg, ops + [op])
      == if op.Swap? && MustSwap(cfg.lens, op.f, op.left, l)
         then l[op.left + 1 := l[op.left + 2]][op.left + 2 := l[op.left + 1]] else l
  {
    assert (ops + [op])[..|ops|] == ops;
    SerialArrangement(cfg, ops);
    if op.Swap? { FiresAsItMust(cfg.lens, op.f, op.left, SerialList(cfg, ops)); }
  }

  // ----- what the counters say

  /** The places of the searches of flavor f among the operations. */
  function Searches(ops: seq<Op>, f: Flavor): set<nat> {
    set i: nat | i < |ops| && ops[i] == Search(f)
  }

  /** Must operation i, a swap of flavor f, exchange two nodes of the list that those before it leave? */
  ghost predicate ExchangesAt(cfg: Config, ops: seq<Op>, f: Flavor, i: nat)
    requires cfg.Valid()
  {
    i < |ops| && ops[i].Swap? && ops[i].f == f && MustSwap(cfg.lens, f, ops[i].left, SerialList(cfg, ops[..i]))
  }

  ghost function Exchanges(cfg: Config, ops: seq<Op>, f: Flavor): set<nat>
    requires cfg.Valid()
  {
    set i: nat | i < |ops| && ExchangesAt(cfg, ops, f, i)
  }

  /** How many pairs each operation finds if it is a search of flavor f. */
  ghost function Finds(cfg: Config, ops: seq<Op>, f: Flavor): seq<int>
    requires cfg.Valid()
  {
    seq(|ops|, i requires 0 <= i < |ops| =>
      if ops[i] == Search(f) then |Found(cfg.lens, f, SerialList(cfg, ops[..i]))| else 0)
  }

  lemma {:induction false} SumAppend(xs: seq<int>, x: int)
    ensures Sum(xs + [x]) == Sum(xs) + x
  {
    if xs != [] {
      assert (xs + [x])[1..] == xs[1..] + [x];
      SumAppend(xs[1..], x);
    }
  }

  lemma SearchesGrow(ops: seq<Op>, f: Flavor)
    requires ops != []
    ensures |Searches(ops, f)| == |Searches(ops[..|ops| - 1], f)| + if ops[|ops| - 1] == Search(f) then 1 else 0
  {
    var k := |ops| - 1;
    assert Searches(ops, f) == Searches(ops[..k], f) + if ops[k] == Search(f) then {k} else {};
  }

  lemma ExchangesBefore(cfg: Config, ops: seq<Op>, f: Flavor, i: nat)
    requires cfg.Valid() && ops != [] && i < |ops| - 1
    ensures ExchangesAt(cfg, ops[..|ops| - 1], f, i) == ExchangesAt(cfg, ops, f, i)
  {
    assert ops[..|ops| - 1][..i] == ops[..i];
  }

  lemma ExchangesGrow(cfg: Config, ops: seq<Op>, f: Flavor)
    requires cfg.Valid() && ops != []
    ensures var k := |ops| - 1;
      |Exchanges(cfg, ops, f)| == |Exchanges(cfg, ops[..k], f)| + if ExchangesAt(cfg, ops, f, k) then 1 else 0
  {
    var k := |ops| - 1;
    var before, now := Exchanges(cfg, ops[..k], f), Exchanges(cfg, ops, f);
    forall i: nat
      ensures i in now <==> i in before || (i == k && ExchangesAt(cfg, ops, f, k))
    {
      if i < k { ExchangesBefore(cfg, ops, f, i); }
    }
    assert now == before + if ExchangesAt(cfg, ops, f, k) then {k} else {};
  }

  lemma FindsGrow(cfg: Config, ops: seq<Op>, f: Flavor)
    requires cfg.Valid() && ops != []
    ensures var k := |ops| - 1;
      Sum(Finds(cfg, ops, f))
      == Sum(Finds(cfg, ops[..k], f))
         + if ops[k] == Search(f) then |Found(cfg.lens, f, SerialList(cfg, ops[..k]))| else 0
  {
    var k := |ops| - 1;
    var last := if ops[k] == Search(f) then |Found(cfg.lens, f, SerialList(cfg, ops[..k]))| else 0;
    forall i | 0 <= i < k ensures ops[..k][..i] == ops[..i] { }
    assert Finds(cfg, ops, f) == Finds(cfg, ops[..k], f) + [last];
    SumAppend(Finds(cfg, ops[..k], f), last);
  }

  /** What the counter k should hold after the operations. */
  ghost function Tally(cfg: Config, ops: seq<Op>, k: Counter): int
    requires cfg.Valid()
  {
    match k
    case Iterations(f) => |Searches(ops, f)|
    case PairCount(f) => Sum(Finds(cfg, ops, f))
    case Swaps(f) => |Exchanges(cfg, ops, f)|
  }

  lemma EarnsMeans(cfg: Config, op: Op, l: seq<nat>, f: Flavor)
    requires cfg.Valid() && Arrangement(l) && |l| == |cfg.lens|
    ensures Earns(cfg.lens, op, l, Iterations(f)) == if op == Search(f) then 1 else 0
    ensures Earns(cfg.lens, op, l, PairCount(f)) == if op == Search(f) then |Found(cfg.lens, f, l)| else 0
    ensures Earns(cfg.lens, op, l, Swaps(f))
         == if op.Swap? && op.f == f && MustSwap(cfg.lens, f, op.left, l) then 1 else 0
  {
    PairsAreFound(cfg.lens, f, l);
    if op.Swap? { FiresAsItMust(cfg.lens, op.f, op.left, l); }
  }

  lemma {:induction false} SerialCountIsTally(cfg: Config, ops: seq<Op>, k: Counter)
    requires cfg.Valid()
    ensures SerialCount(cfg.lens, Fresh(cfg.Size()), ops, k) == Tally(cfg, ops, k)
  {
    if ops != [] {
      var before := ops[..|ops| - 1];
      SerialCountIsTally(cfg, before, k);
      SerialArrangement(cfg, before);
      EarnsMeans(cfg, ops[|ops| - 1], SerialList(cfg, before), k.f);
      SearchesGrow(ops, k.f);
      FindsGrow(cfg, ops, k.f);
      ExchangesGrow(cfg, ops, k.f);
    }
  }

  /** At rest the counters are, per flavor, the number of searches, the number of pairs that these had to
      find, and the number of swaps that had to exchange two nodes, in the order in which `first` was locked. */
  lemma CountersMean(cfg: Config, acts: seq<Action>, f: Flavor)
    requires cfg.Valid() && Quiescent(Exec(cfg, acts))
    ensures var m, ops := Exec(cfg, acts).mem, HeadOrder(cfg, acts);
      && Value(m.counters, Iterations(f)) == |Searches(ops, f)|
      && Value(m.counters, PairCount(f)) == Sum(Finds(cfg, ops, f))
      && Value(m.counters, Swaps(f)) == |Exchanges(cfg, ops, f)|
  {
    SerialEquivalence(cfg, acts);
    SerialCountIsTally(cfg, HeadOrder(cfg, acts), Iterations(f));
    SerialCountIsTally(cfg, HeadOrder(cfg, acts), PairCount(f));
    SerialCountIsTally(cfg, HeadOrder(cfg, acts), Swaps(f));
  }

  // ----- the index drawn

  /** What `rand_r` returned at the last draw of thread t. */
  ghost function LastDraw(cfg: Config, acts: seq<Action>, t: nat): nat
    requires cfg.Valid()
  {
    if acts == [] then 0
    else
      var before, a := acts[..|acts| - 1], acts[|acts| - 1];
      var s := Exec(cfg, before);
      if a.Run? && a.t == t < |s.threads| && s.threads[t].pc.Choose? then a.choice else LastDraw(cfg, before, t)
  }

  /** Has the swapper th drawn its index, and not yet turned to the next operation? */
  predicate Drawn(th: Thread) {
    !th.pc.Start? && !th.pc.Idle? && !th.pc.Done? && !th.pc.Choose?
  }

  lemma DrawStep(cfg: Config, m: Memory, t: nat, th: Thread, f: Flavor, choice: nat)
    requires MemoryOk(cfg, m) && PointsInside(cfg, th) && Drawn(SwapperStep(cfg, m, t, th, f, choice).th)
    ensures var th' := SwapperStep(cfg, m, t, th, f, choice).th;
      if th.pc.Choose? then th'.left == if cfg.Size() < 2 then 0 else choice % (cfg.Size() - 1)
      else Drawn(th) && th'.left == th.left
  {
  }

  lemma DrawnAt(cfg: Config, before: seq<Action>, a: Action, t: nat)
    requires cfg.Valid() && t < |cfg.roles| && cfg.roles[t].Swapper?
    requires Drawn(Exec(cfg, before).threads[t]) ==>
               Exec(cfg, before).threads[t].left == if cfg.Size() < 2 then 0 else LastDraw(cfg, before, t) % (cfg.Size() - 1)
    requires Drawn(Step(cfg, Exec(cfg, before), a).threads[t])
    ensures Step(cfg, Exec(cfg, before), a).threads[t].left
         == if cfg.Size() < 2 then 0 else LastDraw(cfg, before + [a], t) % (cfg.Size() - 1)
  {
    assert (before + [a])[..|before|] == before;
    var s := Exec(cfg, before);
    if a.Run? && a.t == t {
      assert PointsInside(cfg, s.threads[t]);
      DrawStep(cfg, s.mem, t, s.threads[t], cfg.roles[t].f, a.choice);
    }
  }

  lemma {:induction false} LeftIsDraw(cfg: Config, acts: seq<Action>, t: nat)
    requires cfg.Valid() && t < |cfg.roles| && cfg.roles[t].Swapper?
    ensures Drawn(Exec(cfg, acts).threads[t]) ==>
              Exec(cfg, acts).threads[t].left
              == if cfg.Size() < 2 then 0 else LastDraw(cfg, acts, t) % (cfg.Size() - 1)
  {
    if acts != [] {
      var before, a := acts[..|acts| - 1], acts[|acts| - 1];
      LeftIsDraw(cfg, before, t);
      assert acts == before + [a];
      if Drawn(Exec(cfg, acts).threads[t]) { DrawnAt(cfg, before, a, t); }
    }
  }

  /** A swapper that is granted the lock of `first` starts a swap at what it drew last, modulo Size - 1. */
  lemma IndexDrawn(cfg: Config, acts: seq<Action>, a: Action)
    requires cfg.Valid() && 2 <= cfg.Size()
    requires TakesHead(cfg, Exec(cfg, acts), a) && cfg.roles[a.t].Swapper?
    ensures HeadOrder(cfg, acts + [a])
         == HeadOrder(cfg, acts) + [Swap(cfg.roles[a.t].f, LastDraw(cfg, acts, a.t) % (cfg.Size() - 1))]
  {
    assert (acts + [a])[..|acts|] == acts;
    LeftIsDraw(cfg, acts, a.t);
  }

  lemma SmallRemainder(k: nat, n: nat)
    requires k < n
    ensures k % n == k
  {
  }

  /** Every index that has a successor can be drawn: it is what a draw of k itself gives. */
  lemma EveryIndexDrawn(cfg: Config, acts: seq<Action>, t: nat, k: nat)
    requires cfg.Valid() && t < |cfg.roles| && cfg.roles[t].Swapper? && k + 1 < cfg.Size()
    requires Exec(cfg, acts).threads[t].pc.Choose?
    ensures Exec(cfg, acts + [Run(t, k)]).threads[t].left == k
    ensures LastDraw(cfg, acts + [Run(t, k)], t) == k
  {
    assert (acts + [Run(t, k)])[..|acts|] == acts;
    SmallRemainder(k, cfg.Size() - 1);
  }
}
