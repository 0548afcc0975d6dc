/** What no run can change: the order of nodes of one length, and the balance between the disorder of
    the list and the swap counters. */
module ListConservation {
  import opened ListOps
  import opened Sums
  import opened Traversals
  import opened LockedList
  import opened ListSimulation
  import opened ListSteps
  import opened ListTheorems

  // ----- stability

  lemma ApplyStable(lens: seq<nat>, v: nat, op: Op, l: seq<nat>)
    ensures OfLength(lens, v, Apply(lens, op, l)) == OfLength(lens, v, l)
  {
    if Fires(lens, op, l) { SwapAtStable(lens, v, l, op.left + 1); }
  }

  /** In every run, at every step, the nodes of one length stand in the order in which they were made. */
  lemma {:induction false} Stability(cfg: Config, acts: seq<Action>, v: nat)
    requires cfg.Valid()
    ensures OfLength(cfg.lens, v, History(cfg, acts).order) == OfLength(cfg.lens, v, Fresh(cfg.Size()))
  {
    if acts != [] {
      var before := acts[..|acts| - 1];
      Stability(cfg, before, v);
      var g, e := History(cfg, before), EventOf(cfg, Exec(cfg, before), acts[|acts| - 1]);
      if e.Exchange? && e.t < |g.walkers| && g.walkers[e.t].In? {
        ApplyStable(cfg.lens, v, g.walkers[e.t].op, g.order);
      }
    }
  }

  lemma ApplyMakeOrder(lens: seq<nat>, op: Op, l: seq<nat>)
    requires MakeOrder(lens, l)
    ensures MakeOrder(lens, Apply(lens, op, l))
  {
    if Fires(lens, op, l) { SwapAtMakeOrder(lens, l, op.left + 1); }
  }

  /** So of two data nodes of one length, the one made first comes first, at every step. */
  lemma MadeFirstComesFirst(cfg: Config, acts: seq<Action>, i: nat, j: nat)
    requires cfg.Valid()
    ensures var l := History(cfg, acts).order;
      i < j < |l| && l[i] < |cfg.lens| && l[j] < |cfg.lens| && cfg.lens[l[i]] == cfg.lens[l[j]] ==> l[i] < l[j]
  {
    InMakeOrder(cfg, acts);
  }

  lemma {:induction false} InMakeOrder(cfg: Config, acts: seq<Action>)
    requires cfg.Valid()
    ensures MakeOrder(cfg.lens, History(cfg, acts).order)
  {
    if acts != [] {
      var before := acts[..|acts| - 1];
      InMakeOrder(cfg, before);
      var g, e := History(cfg, before), EventOf(cfg, Exec(cfg, before), acts[|acts| - 1]);
      if e.Exchange? && e.t < |g.walkers| && g.walkers[e.t].In? {
        ApplyMakeOrder(cfg.lens, g.walkers[e.t].op, g.order);
      }
    }
  }

  // ----- inversions

  /** An exchange of flavor f made but not yet counted. */
  function Uncounted(role: Role, th: Thread, f: Flavor): int {
    if role == Swapper(f) && (th.pc.Write2? || th.pc.Write3? || th.pc.AddSwap?) then 1 else 0
  }

  function AllUncounted(cfg: Config, s: State, f: Flavor): seq<int>
    requires |s.threads| == |cfg.roles|
  {
    seq(|s.threads|, t requires 0 <= t < |s.threads| => Uncounted(cfg.roles[t], s.threads[t], f))
  }

  /** Exchanges of flavor f made so far: those counted, and those about to be. */
  function Made(cfg: Config, s: State, f: Flavor): int
    requires |s.threads| == |cfg.roles|
  {
    Value(s.mem.counters, Swaps(f)) + Sum(AllUncounted(cfg, s, f))
  }

  function Abs(x: int): int {
    if x < 0 then -x else x
  }

  /** Ascending swaps each remove one inversion, descending ones each add one, and the swaps of unequal
      lengths do either; d is what they have done on balance. */
  ghost predicate Accounted(d: int, unequal: int) {
    Abs(d) <= unequal && (d + unequal) % 2 == 0
  }

  ghost function Balance(cfg: Config, s: State, l: seq<nat>): int
    requires cfg.Valid() && |s.threads| == |cfg.roles|
  {
    Disorder(cfg.lens, l) - Disorder(cfg.lens, Fresh(cfg.Size()))
    + Made(cfg, s, Asc) - Made(cfg, s, Desc)
  }

  /** What one step makes of the exchanges made. */
  lemma MadeStep(cfg: Config, s: State, t: nat, choice: nat, f: Flavor)
    requires WellFormed(cfg, s) && t < |s.threads|
    ensures var r := ThreadStep(cfg, s.mem, t, s.threads[t], choice);
      Made(cfg, Step(cfg, s, Run(t, choice)), f)
      == Made(cfg, s, f)
         + Value(r.mem.counters, Swaps(f)) - Value(s.mem.counters, Swaps(f))
         + Uncounted(cfg.roles[t], r.th, f) - Uncounted(cfg.roles[t], s.threads[t], f)
  {
    var s' := Step(cfg, s, Run(t, choice));
    var d, d' := AllUncounted(cfg, s, f), AllUncounted(cfg, s', f);
    assert d' == d[t := d'[t]];
    SumUpdate(d, t, d'[t]);
  }

  lemma SearcherMakesNone(cfg: Config, m: Memory, t: nat, th: Thread, f: Flavor, k: Flavor)
    requires MemoryOk(cfg, m) && PointsInside(cfg, th)
    ensures Value(SearcherStep(cfg, m, t, th, f).mem.counters, Swaps(k)) == Value(m.counters, Swaps(k))
  {
  }

  /** A swapper's step makes an exchange of its own flavor exactly at its first write. */
  lemma SwapperMakes(cfg: Config, m: Memory, l: seq<nat>, t: nat, th: Thread, w: Walker, f: Flavor, choice: nat,
                     k: Flavor)
    requires MemoryOk(cfg, m) && PointsInside(cfg, th) && SwapperTracks(cfg.lens, l, f, th, w)
    ensures var r := SwapperStep(cfg, m, t, th, f, choice);
      Value(r.mem.counters, Swaps(k)) - Value(m.counters, Swaps(k))
      + Uncounted(Swapper(f), r.th, k) - Uncounted(Swapper(f), th, k)
      == if th.pc.Write1? && k == f then 1 else 0
  {
  }

  /** The list changes exactly then, by one exchange of neighbours that the flavor wants. */
  lemma SwapperReorders(cfg: Config, m: Memory, l: seq<nat>, t: nat, th: Thread, w: Walker, f: Flavor)
    requires MemoryOk(cfg, m) && PointsInside(cfg, th) && SwapperTracks(cfg.lens, l, f, th, w)
    ensures var e := SwapperEvent(cfg, m, t, th, f);
      if th.pc.Write1? then
        && th.left + 2 < |l| && Wants(f, Len(cfg.lens, l[th.left + 1]), Len(cfg.lens, l[th.left + 2]))
        && Reordered(cfg.lens, l, w, e) == SwapAt(l, th.left + 1)
      else Reordered(cfg.lens, l, w, e) == l
  {
  }

  /** A made exchange moves disorder and tally together. */
  lemma ExchangeAccounted(f: Flavor, x: nat, y: nat, d: int, unequal: int)
    requires Wants(f, x, y) && Accounted(d, unequal)
    ensures var moved := d + Sign(x, y) + (if f == Asc then 1 else 0) - (if f == Desc then 1 else 0);
      Accounted(moved, if f == Equality then unequal + 1 else unequal)
  {
  }

  lemma SwapperTally(cfg: Config, s: State, g: Shadow, t: nat, choice: nat, f: Flavor, k: Flavor)
    requires WellFormed(cfg, s) && t < |s.threads| == |g.walkers| && cfg.roles[t] == Swapper(f)
    requires SwapperTracks(cfg.lens, g.order, f, s.threads[t], g.walkers[t])
    ensures Made(cfg, Step(cfg, s, Run(t, choice)), k)
         == Made(cfg, s, k) + if s.threads[t].pc.Write1? && k == f then 1 else 0
  {
    MadeStep(cfg, s, t, choice, k);
    SwapperMakes(cfg, s.mem, g.order, t, s.threads[t], g.walkers[t], f, choice, k);
  }

  lemma SwapperBalances(cfg: Config, s: State, g: Shadow, t: nat, choice: nat, f: Flavor)
    requires WellFormed(cfg, s) && t < |s.threads| == |g.walkers| && cfg.roles[t] == Swapper(f)
    requires SwapperTracks(cfg.lens, g.order, f, s.threads[t], g.walkers[t])
    requires Accounted(Balance(cfg, s, g.order), Made(cfg, s, Equality))
    ensures var s' := Step(cfg, s, Run(t, choice));
      var l' := Reordered(cfg.lens, g.order, g.walkers[t], SwapperEvent(cfg, s.mem, t, s.threads[t], f));
      Accounted(Balance(cfg, s', l'), Made(cfg, s', Equality))
  {
    var th, l, s' := s.threads[t], g.order, Step(cfg, s, Run(t, choice));
    SwapperReorders(cfg, s.mem, l, t, th, g.walkers[t], f);
    SwapperTally(cfg, s, g, t, choice, f, Asc);
    SwapperTally(cfg, s, g, t, choice, f, Desc);
    SwapperTally(cfg, s, g, t, choice, f, Equality);
    if th.pc.Write1? { TallyBalances(cfg, s, s', l, th.left + 1, f); }
  }

  lemma TallyBalances(cfg: Config, s: State, s': State, l: seq<nat>, j: nat, f: Flavor)
    requires cfg.Valid() && |s.threads| == |s'.threads| == |cfg.roles| && 1 <= j && j + 1 < |l|
    requires Wants(f, Len(cfg.lens, l[j]), Len(cfg.lens, l[j + 1]))
    requires Accounted(Balance(cfg, s, l), Made(cfg, s, Equality))
    requires Made(cfg, s', Asc) == Made(cfg, s, Asc) + if f == Asc then 1 else 0
    requires Made(cfg, s', Desc) == Made(cfg, s, Desc) + if f == Desc then 1 else 0
    requires Made(cfg, s', Equality) == Made(cfg, s, Equality) + if f == Equality then 1 else 0
    ensures Accounted(Balance(cfg, s', SwapAt(l, j)), Made(cfg, s', Equality))
  {
    DisorderSwap(cfg.lens, l, j);
    ExchangeAccounted(f, Len(cfg.lens, l[j]), Len(cfg.lens, l[j + 1]), Balance(cfg, s, l), Made(cfg, s, Equality));
  }

  lemma SearcherBalances(cfg: Config, s: State, g: Shadow, t: nat, choice: nat, f: Flavor)
    requires WellFormed(cfg, s) && t < |s.threads| == |g.walkers| && cfg.roles[t] == Searcher(f)
    requires SearcherTracks(cfg.lens, g.order, f, s.threads[t], g.walkers[t])
    requires Accounted(Balance(cfg, s, g.order), Made(cfg, s, Equality))
    ensures var s' := Step(cfg, s, Run(t, choice));
      var l' := Reordered(cfg.lens, g.order, g.walkers[t], SearcherEvent(cfg, s.mem, t, s.threads[t], f));
      Accounted(Balance(cfg, s', l'), Made(cfg, s', Equality))
  {
    forall k: Flavor
      ensures Made(cfg, Step(cfg, s, Run(t, choice)), k) == Made(cfg, s, k)
    {
      MadeStep(cfg, s, t, choice, k);
      SearcherMakesNone(cfg, s.mem, t, s.threads[t], f, k);
    }
    SearcherWritesNothing(cfg, s.mem, g.order, t, s.threads[t], g.walkers[t], f);
  }

  lemma BalanceStep(cfg: Config, s: State, g: Shadow, t: nat, choice: nat)
    requires WellFormed(cfg, s) && AllTrack(cfg, s, g) && t < |s.threads|
    requires Accounted(Balance(cfg, s, g.order), Made(cfg, s, Equality))
    ensures var s' := Step(cfg, s, Run(t, choice));
      var l' := Reordered(cfg.lens, g.order, g.walkers[t], ThreadEvent(cfg, s.mem, t, s.threads[t]));
      Accounted(Balance(cfg, s', l'), Made(cfg, s', Equality))
  {
    assert Tracks(cfg.lens, g.order, cfg.roles[t], s.threads[t], g.walkers[t]);
    match cfg.roles[t]
    case Searcher(f) => SearcherBalances(cfg, s, g, t, choice, f);
    case Swapper(f) => SwapperBalances(cfg, s, g, t, choice, f);
  }

  lemma BalanceAction(cfg: Config, s: State, g: Shadow, a: Action)
    requires WellFormed(cfg, s) && AllTrack(cfg, s, g)
    requires Accounted(Balance(cfg, s, g.order), Made(cfg, s, Equality))
    ensures var s', g' := Step(cfg, s, a), Advance(cfg.lens, g, EventOf(cfg, s, a));
      Accounted(Balance(cfg, s', g'.order), Made(cfg, s', Equality))
  {
    if a.Run? && a.t < |s.threads| {
      BalanceStep(cfg, s, g, a.t, a.choice);
      EventIsOwn(cfg, s, a.t);
    } else {
      SameUncounted(cfg, s, Step(cfg, s, a));
    }
  }

  lemma ReachableTracks(cfg: Config, acts: seq<Action>)
    requires cfg.Valid()
    ensures AllTrack(cfg, Exec(cfg, acts), History(cfg, acts))
  {
    Reachable(cfg, acts);
  }

  lemma InitialBalance(cfg: Config)
    requires cfg.Valid()
    ensures Accounted(Balance(cfg, Init(cfg), Fresh(cfg.Size())), Made(cfg, Init(cfg), Equality))
  {
    SumZero(AllUncounted(cfg, Init(cfg), Asc));
    SumZero(AllUncounted(cfg, Init(cfg), Desc));
    SumZero(AllUncounted(cfg, Init(cfg), Equality));
  }

  /** Inversion conservation, at every step of every run. */
  lemma {:induction false} InversionsConserved(cfg: Config, acts: seq<Action>)
    requires cfg.Valid()
    ensures Accounted(Balance(cfg, Exec(cfg, acts), History(cfg, acts).order), Made(cfg, Exec(cfg, acts), Equality))
  {
    if acts == [] {
      InitialBalance(cfg);
    } else {
      var before := acts[..|acts| - 1];
      InversionsConserved(cfg, before);
      ReachableTracks(cfg, before);
      BalanceAction(cfg, Exec(cfg, before), History(cfg, before), acts[|acts| - 1]);
    }
  }

  lemma SameUncounted(cfg: Config, s: State, s': State)
    requires |s.threads| == |cfg.roles| && s'.threads == s.threads && s'.mem.counters == s.mem.counters
    ensures forall f :: Made(cfg, s', f) == Made(cfg, s, f)
  {
    forall f ensures AllUncounted(cfg, s', f) == AllUncounted(cfg, s, f) { }
  }

  lemma DisorderBound(lens: seq<nat>, l: seq<nat>)
    requires l != []
    ensures 2 * Disorder(lens, l) <= (|l| - 1) * (|l| - 2)
  {
    InversionsBound(Lengths(lens, l[1..]));
  }

  /** List l and the swap counters account for each other, and ascending and descending swaps do not
      differ by more than n(n-1)/2 and the number of unequal swaps. */
  ghost predicate Conserved(cfg: Config, m: Memory, l: seq<nat>)
    requires cfg.Valid()
  {
    var n := cfg.Size();
    var asc, desc := Value(m.counters, Swaps(Asc)), Value(m.counters, Swaps(Desc));
    var unequal := Value(m.counters, Swaps(Equality));
    && Accounted(Disorder(cfg.lens, l) - Disorder(cfg.lens, Fresh(n)) + asc - desc, unequal)
    && 2 * Abs(asc - desc) <= n * (n - 1) + 2 * unequal
  }

  /** Whenever no operation is under way, the counters alone account for the disorder of the list. */
  lemma SwapsConserved(cfg: Config, acts: seq<Action>)
    requires cfg.Valid() && Quiescent(Exec(cfg, acts))
    ensures var m, l := Exec(cfg, acts).mem, SerialList(cfg, HeadOrder(cfg, acts));
      Spells(m.next, l) && Conserved(cfg, m, l)
  {
    SerialEquivalence(cfg, acts);
    RestOrder(cfg, acts);
    InversionsConserved(cfg, acts);
    RestConserved(cfg, Exec(cfg, acts), History(cfg, acts).order);
  }

  lemma RestConserved(cfg: Config, s: State, l: seq<nat>)
    requires WellFormed(cfg, s) && Quiescent(s) && |l| == cfg.Size() + 1
    requires Accounted(Balance(cfg, s, l), Made(cfg, s, Equality))
    ensures Conserved(cfg, s.mem, l)
  {
    RestUncounted(cfg, s, Asc);
    RestUncounted(cfg, s, Desc);
    RestUncounted(cfg, s, Equality);
    DisorderBound(cfg.lens, l);
    DisorderBound(cfg.lens, Fresh(cfg.Size()));
    SwapBound(Disorder(cfg.lens, Fresh(cfg.Size())), Disorder(cfg.lens, l), cfg.Size() * (cfg.Size() - 1),
              Value(s.mem.counters, Swaps(Asc)), Value(s.mem.counters, Swaps(Desc)),
              Value(s.mem.counters, Swaps(Equality)));
  }

  lemma RestOrder(cfg: Config, acts: seq<Action>)
    requires cfg.Valid() && Quiescent(Exec(cfg, acts))
    ensures History(cfg, acts).order == SerialList(cfg, HeadOrder(cfg, acts))
    ensures |History(cfg, acts).order| == cfg.Size() + 1
  {
    Reachable(cfg, acts);
    LogIsHeadOrder(cfg, acts);
    RestAgrees(cfg, Exec(cfg, acts), History(cfg, acts));
  }

  lemma SwapBound(before: nat, after: nat, bound: int, asc: int, desc: int, unequal: int)
    requires 2 * before <= bound && 2 * after <= bound
    requires Accounted(after - before + asc - desc, unequal)
    ensures 2 * Abs(asc - desc) <= bound + 2 * unequal
  {
  }

  lemma RestUncounted(cfg: Config, s: State, f: Flavor)
    requires |s.threads| == |cfg.roles| && Quiescent(s)
    ensures Made(cfg, s, f) == Value(s.mem.counters, Swaps(f))
  {
    SumZero(AllUncounted(cfg, s, f));
  }

  /** Are the data nodes of l in the order of their lengths? */
  ghost predicate Sorted(lens: seq<nat>, l: seq<nat>) {
    forall i, j :: 1 <= i < j < |l| && l[i] < |lens| && l[j] < |lens| ==> lens[l[i]] <= lens[l[j]]
  }

  lemma DisorderZero(lens: seq<nat>, l: seq<nat>)
    requires l != [] && forall i :: 0 <= i < |l| ==> l[i] < |lens|
    ensures Disorder(lens, l) == 0 <==> Sorted(lens, l)
  {
    var s := Lengths(lens, l[1..]);
    InversionsZero(s);
    assert forall i :: 1 <= i < |l| ==> s[i - 1] == lens[l[i]];
  }

  /** If only ascending swaps have been made, the list at rest is sorted exactly if they are as many as the
      original list had pairs out of order. */
  lemma SortedExactly(cfg: Config, acts: seq<Action>)
    requires cfg.Valid() && Quiescent(Exec(cfg, acts))
    requires var m := Exec(cfg, acts).mem; Value(m.counters, Swaps(Desc)) == 0 == Value(m.counters, Swaps(Equality))
    ensures var m, l := Exec(cfg, acts).mem, SerialList(cfg, HeadOrder(cfg, acts));
      && Spells(m.next, l)
      && (Sorted(cfg.lens, l) <==> Value(m.counters, Swaps(Asc)) == Disorder(cfg.lens, Fresh(cfg.Size())))
  {
    SwapsConserved(cfg, acts);
    SerialArrangement(cfg, HeadOrder(cfg, acts));
    DisorderZero(cfg.lens, SerialList(cfg, HeadOrder(cfg, acts)));
  }

  /** Whenever no operation is under way, the list in the heap has the nodes of every length in the order in
      which they were made. */
  lemma StableAtRest(cfg: Config, acts: seq<Action>)
    requires cfg.Valid() && Quiescent(Exec(cfg, acts))
    ensures var l := SerialList(cfg, HeadOrder(cfg, acts));
      && Spells(Exec(cfg, acts).mem.next, l)
      && (forall i, j :: 0 <= i < j < |l| && l[i] < |cfg.lens| && l[j] < |cfg.lens| ==>
            cfg.lens[l[i]] == cfg.lens[l[j]] ==> l[i] < l[j])
      && forall v: nat :: OfLength(cfg.lens, v, l) == OfLength(cfg.lens, v, Fresh(cfg.Size()))
  {
    SerialEquivalence(cfg, acts);
    RestOrder(cfg, acts);
    InMakeOrder(cfg, acts);
    forall v: nat
      ensures OfLength(cfg.lens, v, History(cfg, acts).order) == OfLength(cfg.lens, v, Fresh(cfg.Size()))
    {
      Stability(cfg, acts, v);
    }
  }
}
