/** What the program guarantees in every run, for any number of threads and any list. */
module ListTheorems {
  import opened ListOps
  import opened Sums
  import opened Traversals
  import opened LockedList
  import opened ListSimulation
  import opened ListSteps

  /** Between two operations: nothing locked, nothing owed. */
  predicate AtRest(th: Thread) {
    th.pc.Start? || th.pc.Idle? || th.pc.Done? || th.pc.Choose? || th.pc.LockFirst?
  }

  ghost predicate Quiescent(s: State) {
    forall t :: 0 <= t < |s.threads| ==> AtRest(s.threads[t])
  }

  /** Thread t is granted the lock of `first` by this action. */
  ghost predicate TakesHead(cfg: Config, s: State, a: Action)
    requires WellFormed(cfg, s)
  {
    a.Run? && a.t < |s.threads| && s.threads[a.t].pc.LockFirst? && !Step(cfg, s, a).threads[a.t].pc.LockFirst?
  }

  function OperationOf(role: Role, th: Thread): Op {
    match role
    case Searcher(f) => Search(f)
    case Swapper(f) => Swap(f, th.left)
  }

  /** The operations of a run in the order in which they locked `first`. */
  ghost function HeadOrder(cfg: Config, acts: seq<Action>): seq<Op>
    requires cfg.Valid()
  {
    if acts == [] then []
    else
      var before, a := acts[..|acts| - 1], acts[|acts| - 1];
      var s := Exec(cfg, before);
      HeadOrder(cfg, before)
      + if TakesHead(cfg, s, a) then [OperationOf(cfg.roles[a.t], s.threads[a.t])] else []
  }

  /** The list that running those operations one at a time leaves. */
  ghost function SerialList(cfg: Config, ops: seq<Op>): seq<nat>
    requires cfg.Valid()
  {
    Serial(cfg.lens, Fresh(cfg.Size()), ops)
  }

  lemma HeadOrderStep(cfg: Config, s: State, g: Shadow, a: Action)
    requires WellFormed(cfg, s) && |g.walkers| == |s.threads|
    ensures Advance(cfg.lens, g, EventOf(cfg, s, a)).log
         == g.log + if TakesHead(cfg, s, a) then [OperationOf(cfg.roles[a.t], s.threads[a.t])] else []
  {
    if a.Run? && a.t < |s.threads| {
      match cfg.roles[a.t]
      case Searcher(f) => assert EventOf(cfg, s, a) == SearcherEvent(cfg, s.mem, a.t, s.threads[a.t], f);
      case Swapper(f) => assert EventOf(cfg, s, a) == SwapperEvent(cfg, s.mem, a.t, s.threads[a.t], f);
    }
  }

  /** The log of the history is the head-lock order. */
  lemma {:induction false} LogIsHeadOrder(cfg: Config, acts: seq<Action>)
    requires cfg.Valid()
    ensures History(cfg, acts).log == HeadOrder(cfg, acts)
  {
    if acts != [] {
      var before := acts[..|acts| - 1];
      LogIsHeadOrder(cfg, before);
      Reachable(cfg, before);
      HeadOrderStep(cfg, Exec(cfg, before), History(cfg, before), acts[|acts| - 1]);
    }
  }

  lemma RestOwesNothing(lens: seq<nat>, l: seq<nat>, role: Role, th: Thread, w: Walker, k: Counter)
    requires Tracks(lens, l, role, th, w) && AtRest(th)
    ensures !w.In? && Debt(lens, th, w, k) == 0 && Held(th) == {}
  {
  }

  lemma RestIsMended(s: State, l: seq<nat>)
    requires Quiescent(s) && Chained(s, l) && 0 < |l| && l[0] == 0
    ensures Spells(s.mem.next, l)
  {
    forall i | 0 <= i < |l|
      ensures s.mem.next[l[i]] == Succ(l, i)
    {
      assert forall t :: 0 <= t < |s.threads| ==> AtRest(s.threads[t]) ==> !Torn(s.threads[t], i);
      assert Mended(s, i);
    }
  }

  lemma RestAgrees(cfg: Config, s: State, g: Shadow)
    requires Sim(cfg, s, g) && Quiescent(s)
    ensures g.order == g.serial
    ensures forall x :: 0 <= x < |s.mem.locks| ==> s.mem.locks[x].Free?
  {
    forall t | 0 <= t < |s.threads|
      ensures !g.walkers[t].In? && Held(s.threads[t]) == {}
    {
      assert Tracks(cfg.lens, g.order, cfg.roles[t], s.threads[t], g.walkers[t]);
      RestOwesNothing(cfg.lens, g.order, cfg.roles[t], s.threads[t], g.walkers[t], Iterations(Asc));
    }
    forall i | 0 <= i < |g.order|
      ensures g.order[i] == g.serial[i]
    {
      assert Clear(g, -1, |g.log|, i);
    }
    forall x | 0 <= x < |s.mem.locks|
      ensures s.mem.locks[x].Free?
    {
      LockedBySomeone(cfg, s, x);
    }
  }

  /** A lock that is not free is in the hands of one of the threads. */
  lemma LockedBySomeone(cfg: Config, s: State, x: int)
    requires LocksMatch(cfg, s) && 0 <= x < |s.mem.locks|
    ensures s.mem.locks[x].Free? || exists t :: 0 <= t < |s.threads| && x in Held(s.threads[t])
  {
    assert LockKind(cfg, s.mem.locks[x]);
    if s.mem.locks[x].Exclusive? {
      assert Owns(s.mem.locks[x], s.mem.locks[x].owner);
      assert x in Held(s.threads[s.mem.locks[x].owner]);
    } else if s.mem.locks[x].Shared? {
      var t :| t in s.mem.locks[x].holders;
      assert Owns(s.mem.locks[x], t);
      assert x in Held(s.threads[t]);
    }
  }

  /** Serial equivalence: whenever no operation is under way, the list in the heap and all nine
      counters are those of running the same operations one at a time in head-lock order. */
  lemma SerialEquivalence(cfg: Config, acts: seq<Action>)
    requires cfg.Valid() && Quiescent(Exec(cfg, acts))
    ensures var s, ops := Exec(cfg, acts), HeadOrder(cfg, acts);
      && Spells(s.mem.next, SerialList(cfg, ops))
      && (forall k: Counter :: Value(s.mem.counters, k) == SerialCount(cfg.lens, Fresh(cfg.Size()), ops, k))
      && (forall x :: 0 <= x < |s.mem.locks| ==> s.mem.locks[x].Free?)
  {
    var s, g := Exec(cfg, acts), History(cfg, acts);
    Reachable(cfg, acts);
    LogIsHeadOrder(cfg, acts);
    RestAgrees(cfg, s, g);
    RestIsMended(s, g.order);
    forall k: Counter
      ensures Value(s.mem.counters, k) == SerialCount(cfg.lens, Fresh(cfg.Size()), g.log, k)
    {
      forall t | 0 <= t < |s.threads|
        ensures Debt(cfg.lens, s.threads[t], g.walkers[t], k) == 0
      {
        assert Tracks(cfg.lens, g.order, cfg.roles[t], s.threads[t], g.walkers[t]);
        RestOwesNothing(cfg.lens, g.order, cfg.roles[t], s.threads[t], g.walkers[t], k);
      }
      SumZero(Debts(cfg.lens, s.threads, g.walkers, k));
    }
  }

  /** The operations that had locked `first` before thread t last did. */
  ghost function Before(cfg: Config, acts: seq<Action>, t: nat): seq<Op>
    requires cfg.Valid()
  {
    if acts == [] then []
    else if TakesHead(cfg, Exec(cfg, acts[..|acts| - 1]), acts[|acts| - 1]) && acts[|acts| - 1].t == t
    then HeadOrder(cfg, acts[..|acts| - 1])
    else Before(cfg, acts[..|acts| - 1], t)
  }

  /** Does thread t lock a node other than `first` by this action? */
  ghost predicate TakesNode(cfg: Config, s: State, a: Action, t: nat)
    requires WellFormed(cfg, s)
  {
    && a.Run? && a.t == t < |s.threads|
    && var th := s.threads[t];
    && (th.pc.LockA? || th.pc.LockB? || th.pc.LockCur? || th.pc.WalkLock? || th.pc.LockRight?)
    && Step(cfg, s, a).threads[t].pc != th.pc
  }

  /** The data nodes that thread t has locked since it last locked `first`, in order. */
  ghost function Visited(cfg: Config, acts: seq<Action>, t: nat): seq<int>
    requires cfg.Valid()
  {
    if acts == [] then []
    else
      var before, a := acts[..|acts| - 1], acts[|acts| - 1];
      var s := Exec(cfg, before);
      if TakesHead(cfg, s, a) && a.t == t then []
      else if TakesNode(cfg, s, a, t) then
        var th := s.threads[t];
        Visited(cfg, before, t) + [if th.pc.LockA? || th.pc.LockCur? then th.cur else th.nxt]
      else Visited(cfg, before, t)
  }

  /** How many pairs thread t has compared since it last locked `first`. */
  ghost function Compared(cfg: Config, acts: seq<Action>, t: nat): nat
    requires cfg.Valid()
  {
    if acts == [] then 0
    else
      var before, a := acts[..|acts| - 1], acts[|acts| - 1];
      var s := Exec(cfg, before);
      if TakesHead(cfg, s, a) && a.t == t then 0
      else if a.Run? && a.t == t < |s.threads| && s.threads[t].pc.CompareAB? then Compared(cfg, before, t) + 1
      else Compared(cfg, before, t)
  }

  /** What the history records about t is what t did. */
  ghost predicate Recorded(cfg: Config, acts: seq<Action>, t: nat)
    requires cfg.Valid()
  {
    var g := History(cfg, acts);
    t < |g.walkers| &&
    match g.walkers[t]
    case Out => true
    case In(_, ticket, _, _, _, _, seen) =>
      ticket <= |g.log| && g.log[..ticket] == Before(cfg, acts, t) && seen == Visited(cfg, acts, t)
    case Past(_, ticket, _, seen) =>
      ticket <= |g.log| && g.log[..ticket] == Before(cfg, acts, t) && seen == Visited(cfg, acts, t)
  }

  /** The events of t itself, read off its steps. */
  lemma EventIs(cfg: Config, s: State, a: Action, t: nat)
    requires WellFormed(cfg, s) && t < |s.threads|
    ensures var e := EventOf(cfg, s, a);
      && (e.Enter? && e.t == t <==> TakesHead(cfg, s, a) && a.t == t)
      && (e.Grab? && e.t == t <==> TakesNode(cfg, s, a, t))
      && (e.Grab? && e.t == t ==>
            var th := s.threads[t]; e.node == if th.pc.LockA? || th.pc.LockCur? then th.cur else th.nxt)
  {
    if a.Run? && a.t == t {
      match cfg.roles[t]
      case Searcher(f) => assert EventOf(cfg, s, a) == SearcherEvent(cfg, s.mem, t, s.threads[t], f);
      case Swapper(f) => assert EventOf(cfg, s, a) == SwapperEvent(cfg, s.mem, t, s.threads[t], f);
    }
  }

  /** Only a thread inside the list takes a further lock, and every ticket is in the log. */
  lemma TakesFromInside(cfg: Config, acts: seq<Action>, a: Action, t: nat)
    requires cfg.Valid() && t < |cfg.roles|
    ensures var s, g := Exec(cfg, acts), History(cfg, acts);
      && |g.walkers| == |s.threads| == |cfg.roles|
      && (!g.walkers[t].Out? ==> g.walkers[t].ticket < |g.log|)
      && (TakesNode(cfg, s, a, t) ==> g.walkers[t].In?)
  {
    var s, g := Exec(cfg, acts), History(cfg, acts);
    Reachable(cfg, acts);
    assert Tracks(cfg.lens, g.order, cfg.roles[t], s.threads[t], g.walkers[t]);
    assert Sound(cfg.lens, Fresh(cfg.Size()), g.order, g.log, g.walkers[t]);
  }

  lemma RecordedStep(cfg: Config, before: seq<Action>, a: Action, t: nat)
    requires cfg.Valid() && Recorded(cfg, before, t) && t < |cfg.roles|
    ensures Recorded(cfg, before + [a], t)
  {
    var acts := before + [a];
    assert acts[..|acts| - 1] == before;
    var s, g := Exec(cfg, before), History(cfg, before);
    TakesFromInside(cfg, before, a, t);
    LogIsHeadOrder(cfg, before);
    EventIs(cfg, s, a, t);
    var g', w := History(cfg, acts), g.walkers[t];
    assert g' == Advance(cfg.lens, g, EventOf(cfg, s, a));
    assert g'.log[..|g.log|] == g.log;
    if !w.Out? { assert g'.log[..w.ticket] == g.log[..w.ticket]; }
  }

  lemma {:induction false} AlwaysRecorded(cfg: Config, acts: seq<Action>, t: nat)
    requires cfg.Valid() && t < |cfg.roles|
    ensures Recorded(cfg, acts, t)
  {
    if acts != [] {
      var before, a := acts[..|acts| - 1], acts[|acts| - 1];
      AlwaysRecorded(cfg, before, t);
      assert acts == before + [a];
      RecordedStep(cfg, before, a, t);
    }
  }

  // ----- comparisons

  /** The number of comparisons made goes with the place in the list. */
  ghost predicate ComparedSoFar(size: int, th: Thread, w: Walker, n: nat) {
    match th.pc
    case ReadB | LockB | CompareAB | UnlockLast => w.In? && n == w.low - 1
    case UnlockA => w.In? && n == w.low
    case ReadA | LockA | UnlockFirst => n == 0
    case AddPairs | AddIter => n == size - 1
    case _ => true
  }

  lemma ComparisonStep(cfg: Config, m: Memory, g: Shadow, t: nat, th: Thread, w: Walker, f: Flavor, n: nat)
    requires Headed(cfg, m, g, th) && SearcherTracks(cfg.lens, g.order, f, th, w)
    requires ComparedSoFar(cfg.Size(), th, w, n)
    ensures var r, e := SearcherStep(cfg, m, t, th, f), SearcherEvent(cfg, m, t, th, f);
      ComparedSoFar(cfg.Size(), r.th, Moved(g, w, e),
                    if e.Enter? then 0 else if th.pc.CompareAB? then n + 1 else n)
  {
  }

  lemma ComparedStep(cfg: Config, before: seq<Action>, a: Action, t: nat)
    requires cfg.Valid() && t < |cfg.roles|
    ensures var s := Exec(cfg, before);
      Compared(cfg, before + [a], t)
      == if TakesHead(cfg, s, a) && a.t == t then 0
         else if a.Run? && a.t == t && s.threads[t].pc.CompareAB? then Compared(cfg, before, t) + 1
         else Compared(cfg, before, t)
  {
    assert (before + [a])[..|before|] == before;
  }

  lemma {:induction false} CountsComparisons(cfg: Config, acts: seq<Action>, t: nat)
    requires cfg.Valid() && t < |cfg.roles| && cfg.roles[t].Searcher?
    ensures var s, g := Exec(cfg, acts), History(cfg, acts);
      && |s.threads| == |g.walkers| == |cfg.roles|
      && ComparedSoFar(cfg.Size(), s.threads[t], g.walkers[t], Compared(cfg, acts, t))
  {
    if acts != [] {
      var before, a := acts[..|acts| - 1], acts[|acts| - 1];
      assert acts == before + [a];
      CountsComparisons(cfg, before, t);
      ComparedStep(cfg, before, a, t);
      SearcherFacts(cfg, before, t);
      var s, g := Exec(cfg, before), History(cfg, before);
      EventIs(cfg, s, a, t);
      if a.Run? && a.t == t {
        ComparisonStep(cfg, s.mem, g, t, s.threads[t], g.walkers[t], cfg.roles[t].f, Compared(cfg, before, t));
      } else if a.Run? && a.t < |s.threads| {
        EventIsOwn(cfg, s, a.t);
      }
    }
  }

  lemma SearcherFacts(cfg: Config, acts: seq<Action>, t: nat)
    requires cfg.Valid() && t < |cfg.roles| && cfg.roles[t].Searcher?
    ensures var s, g := Exec(cfg, acts), History(cfg, acts);
      && |g.walkers| == |s.threads| && Headed(cfg, s.mem, g, s.threads[t])
      && SearcherTracks(cfg.lens, g.order, cfg.roles[t].f, s.threads[t], g.walkers[t])
  {
    Reachable(cfg, acts);
    var s, g := Exec(cfg, acts), History(cfg, acts);
    assert Tracks(cfg.lens, g.order, cfg.roles[t], s.threads[t], g.walkers[t]);
  }

  // ----- one operation at a time

  /** What is known of one thread in a reachable state. */
  lemma ThreadFacts(cfg: Config, acts: seq<Action>, t: nat)
    requires cfg.Valid() && t < |cfg.roles|
    ensures var s, g := Exec(cfg, acts), History(cfg, acts);
      && |s.threads| == |g.walkers| == |cfg.roles| && |g.order| == |cfg.lens| && Arrangement(g.order)
      && Tracks(cfg.lens, g.order, cfg.roles[t], s.threads[t], g.walkers[t])
      && Sound(cfg.lens, Fresh(cfg.Size()), g.order, g.log, g.walkers[t])
      && (!g.walkers[t].Out? ==> g.walkers[t].snap == SerialList(cfg, Before(cfg, acts, t))
                                 && g.walkers[t].seen == Visited(cfg, acts, t))
      && (g.walkers[t].In? && (g.walkers[t].op.Search? || g.walkers[t].pending) ==>
            MeetsSnapshot(g.order, g.walkers[t]))
  {
    Reachable(cfg, acts);
    AlwaysRecorded(cfg, acts, t);
    var s, g := Exec(cfg, acts), History(cfg, acts);
    assert Tracks(cfg.lens, g.order, cfg.roles[t], s.threads[t], g.walkers[t]);
    assert Sound(cfg.lens, Fresh(cfg.Size()), g.order, g.log, g.walkers[t]);
    if g.walkers[t].In? && (g.walkers[t].op.Search? || g.walkers[t].pending) { SnapshotMet(cfg, g, t); }
  }

  /** The data nodes, in the order of their allocation. */
  function DataNodes(cfg: Config): seq<nat>
    requires cfg.Valid()
  {
    Fresh(cfg.Size())[1..]
  }

  lemma TailMultiset(l: seq<nat>, l': seq<nat>)
    requires l != [] && l' != [] && l[0] == l'[0] && multiset(l) == multiset(l')
    ensures multiset(l[1..]) == multiset(l'[1..])
  {
    assert l == [l[0]] + l[1..] && l' == [l'[0]] + l'[1..];
    assert multiset(l[1..]) == multiset(l) - multiset{l[0]};
  }

  /** Has searcher th finished its traversal, with the counters still to be updated? */
  predicate Finished(th: Thread) {
    th.pc.AddPairs? || th.pc.AddIter?
  }

  lemma FinishedCount(lens: seq<nat>, l: seq<nat>, f: Flavor, th: Thread, w: Walker)
    requires SearcherTracks(lens, l, f, th, w) && Finished(th)
    ensures w.Past? && w.op.Search? && th.pairs == Pairs(lens, f, w.snap)
  {
  }

  lemma {:induction false} SerialArrangement(cfg: Config, ops: seq<Op>)
    requires cfg.Valid()
    ensures Arrangement(SerialList(cfg, ops)) && |SerialList(cfg, ops)| == |cfg.lens|
  {
    if ops == [] {
      FreshArrangement(cfg.Size());
    } else {
      SerialArrangement(cfg, ops[..|ops| - 1]);
      ApplyArrangement(cfg.lens, ops[|ops| - 1], SerialList(cfg, ops[..|ops| - 1]));
    }
  }

  /** A finished search iteration counted exactly the pairs of the serial list at its place: the places where
      the next data node is longer, shorter, or of the same length, by its flavor. */
  lemma SearchIsSerial(cfg: Config, acts: seq<Action>, t: nat)
    requires cfg.Valid() && t < |cfg.roles| && cfg.roles[t].Searcher? && Finished(Exec(cfg, acts).threads[t])
    ensures var l, n := SerialList(cfg, Before(cfg, acts, t)), Exec(cfg, acts).threads[t].pairs;
      && Arrangement(l) && |l| == |cfg.lens| && n == Pairs(cfg.lens, cfg.roles[t].f, l)
      && (cfg.roles[t].f == Asc ==> n == |Rises(cfg.lens, l)|)
      && (cfg.roles[t].f == Desc ==> n == |Falls(cfg.lens, l)|)
      && (cfg.roles[t].f == Equality ==> n == |Levels(cfg.lens, l)|)
  {
    ThreadFacts(cfg, acts, t);
    var g := History(cfg, acts);
    FinishedCount(cfg.lens, g.order, cfg.roles[t].f, Exec(cfg, acts).threads[t], g.walkers[t]);
    SerialArrangement(cfg, Before(cfg, acts, t));
    PairsAreFound(cfg.lens, cfg.roles[t].f, SerialList(cfg, Before(cfg, acts, t)));
  }

  lemma SeenAll(cfg: Config, l: seq<nat>, log: seq<Op>, w: Walker)
    requires cfg.Valid() && Sound(cfg.lens, Fresh(cfg.Size()), l, log, w) && w.Past? && w.op.Search?
    requires Arrangement(l) && |l| == |cfg.lens|
    ensures multiset(w.seen) == multiset(DataNodes(cfg)) && |w.seen| == cfg.Size()
  {
    TailMultiset(l, Fresh(cfg.Size()));
    SameSize(w.seen, DataNodes(cfg));
  }

  /** A finished search iteration locked every data node exactly once and made Size - 1 comparisons. */
  lemma {:induction false} ExactlyOnce(cfg: Config, acts: seq<Action>, t: nat)
    requires cfg.Valid() && t < |cfg.roles| && cfg.roles[t].Searcher? && Finished(Exec(cfg, acts).threads[t])
    ensures multiset(Visited(cfg, acts, t)) == multiset(DataNodes(cfg))
    ensures |Visited(cfg, acts, t)| == cfg.Size() && Compared(cfg, acts, t) == cfg.Size() - 1
  {
    ThreadFacts(cfg, acts, t);
    CountsComparisons(cfg, acts, t);
    var g := History(cfg, acts);
    FinishedCount(cfg.lens, g.order, cfg.roles[t].f, Exec(cfg, acts).threads[t], g.walkers[t]);
    SeenAll(cfg, g.order, g.log, g.walkers[t]);
  }

  /** The node whose `next` thread th reads in its next step, if it reads one. */
  function Reads(th: Thread): int {
    match th.pc
    case ReadA => 0
    case ReadCur => th.prev
    case ReadB | Walk | ReadRight => th.cur
    case _ => NULL
  }

  /** A thread reads the `next` at the front of its window. */
  lemma ReadsAtFront(lens: seq<nat>, l: seq<nat>, role: Role, th: Thread, w: Walker)
    requires Tracks(lens, l, role, th, w) && Reads(th) != NULL && l != [] && l[0] == 0
    ensures w.In? && w.low <= w.high < |l| && l[w.high] == Reads(th)
  {
  }

  lemma SameSize(a: seq<nat>, b: seq<nat>)
    requires multiset(a) == multiset(b)
    ensures |a| == |b|
  {
    assert |multiset(a)| == |a| && |multiset(b)| == |b|;
  }

  /** The nodes of v are those at indices 1 to |v| of l. */
  ghost predicate CoversFront(l: seq<nat>, v: seq<int>) {
    |v| < |l| && multiset(v) == multiset(l[1..|v| + 1])
  }

  lemma VisitedPart(lens: seq<nat>, l0: seq<nat>, l: seq<nat>, log: seq<Op>, role: Role, th: Thread, w: Walker)
    requires Sound(lens, l0, l, log, w) && w.In? && Tracks(lens, l, role, th, w) && l != [] && l[0] == 0
    ensures |w.seen| == w.high && CoversFront(l, w.seen)
    ensures Reads(th) != NULL ==> Reads(th) == l[|w.seen|]
  {
    SameSize(w.seen, l[1..w.high + 1]);
    if Reads(th) != NULL { ReadsAtFront(lens, l, role, th, w); }
  }

  lemma WindowFacts(cfg: Config, acts: seq<Action>, t: nat)
    requires cfg.Valid() && t < |cfg.roles|
    ensures var s, g := Exec(cfg, acts), History(cfg, acts);
      && |s.threads| == |g.walkers| == |cfg.roles| && g.order != [] && g.order[0] == 0
      && Tracks(cfg.lens, g.order, cfg.roles[t], s.threads[t], g.walkers[t])
      && Sound(cfg.lens, Fresh(cfg.Size()), g.order, g.log, g.walkers[t])
      && (g.walkers[t].In? ==> g.walkers[t].seen == Visited(cfg, acts, t))
  {
    ThreadFacts(cfg, acts, t);
  }

  /** Under any concurrent swaps, what an operation inside the list has visited is exactly what now
      stands at the indices up to the front of its window. */
  lemma VisitedIsPrefix(cfg: Config, acts: seq<Action>, t: nat)
    requires cfg.Valid() && t < |cfg.roles| && Inside(History(cfg, acts), t)
    ensures var g, v := History(cfg, acts), Visited(cfg, acts, t);
      && CoversFront(g.order, v)
      && (Reads(Exec(cfg, acts).threads[t]) != NULL ==> Reads(Exec(cfg, acts).threads[t]) == g.order[|v|])
  {
    WindowFacts(cfg, acts, t);
    var s, g := Exec(cfg, acts), History(cfg, acts);
    VisitedPart(cfg.lens, Fresh(cfg.Size()), g.order, g.log, cfg.roles[t], s.threads[t], g.walkers[t]);
  }

  /** A swapper about to compare stands at its index of l. */
  ghost predicate StandsAt(l: seq<nat>, th: Thread) {
    th.left + 2 < |l| && th.cur == l[th.left + 1] && th.nxt == l[th.left + 2]
  }

  lemma ComparingStandsAt(lens: seq<nat>, l: seq<nat>, f: Flavor, th: Thread, w: Walker)
    requires SwapperTracks(lens, l, f, th, w) && th.pc.CompareLR? && MeetsSnapshot(l, w)
    ensures StandsAt(l, th) && StandsAt(w.snap, th)
  {
  }

  lemma ComparingGoesOn(cfg: Config, m: Memory, t: nat, th: Thread, f: Flavor, choice: nat, l: seq<nat>)
    requires MemoryOk(cfg, m) && PointsInside(cfg, th) && th.pc.CompareLR? && StandsAt(l, th)
    requires forall i :: 0 <= i < |l| ==> l[i] < |cfg.lens|
    ensures SwapperStep(cfg, m, t, th, f, choice).th.pc
         == if MustSwap(cfg.lens, f, th.left, l) then Write1 else UnlockNext
  {
  }

  lemma ComparingThreadGoesOn(cfg: Config, s: State, t: nat, choice: nat, l: seq<nat>)
    requires WellFormed(cfg, s) && t < |cfg.roles| && cfg.roles[t].Swapper?
    requires s.threads[t].pc.CompareLR? && StandsAt(l, s.threads[t])
    requires forall i :: 0 <= i < |l| ==> l[i] < |cfg.lens|
    ensures Step(cfg, s, Run(t, choice)).threads[t].pc
         == if MustSwap(cfg.lens, cfg.roles[t].f, s.threads[t].left, l) then Write1 else UnlockNext
  {
    assert PointsInside(cfg, s.threads[t]);
    ComparingGoesOn(cfg, s.mem, t, s.threads[t], cfg.roles[t].f, choice, l);
  }

  /** A swapper that is about to compare holds the nodes at left_index, and the next one, of the list
      as it is; they are those of the serial list at its place, and it goes on to exchange them exactly if
      there their lengths fall, rise or differ, by its flavor. */
  lemma SwapIsSerial(cfg: Config, acts: seq<Action>, t: nat, choice: nat)
    requires cfg.Valid() && t < |cfg.roles| && cfg.roles[t].Swapper?
    requires Exec(cfg, acts).threads[t].pc.CompareLR?
    ensures var th, next := Exec(cfg, acts).threads[t], Step(cfg, Exec(cfg, acts), Run(t, choice)).threads[t];
      var f, l := cfg.roles[t].f, SerialList(cfg, Before(cfg, acts, t));
      && StandsAt(History(cfg, acts).order, th) && StandsAt(l, th)
      && next.pc == (if MustSwap(cfg.lens, f, th.left, l) then Write1 else UnlockNext)
  {
    ThreadFacts(cfg, acts, t);
    SerialArrangement(cfg, Before(cfg, acts, t));
    var g := History(cfg, acts);
    ComparingStandsAt(cfg.lens, g.order, cfg.roles[t].f, Exec(cfg, acts).threads[t], g.walkers[t]);
    ComparingThreadGoesOn(cfg, Exec(cfg, acts), t, choice, SerialList(cfg, Before(cfg, acts, t)));
  }

  /** For lists of every size, the exits on a null `next` are unreachable. */
  lemma NoEarlyExit(cfg: Config, acts: seq<Action>, t: nat)
    requires cfg.Valid() && t < |cfg.roles|
    ensures var pc := Exec(cfg, acts).threads[t].pc;
      !pc.EmptyUnlock? && !pc.EmptyCount? && !pc.EmptyBail? && !pc.BailCur? && !pc.BailPrev?
  {
    ThreadFacts(cfg, acts, t);
    var g := History(cfg, acts);
    TracksHands(cfg.lens, g.order, cfg.roles[t], Exec(cfg, acts).threads[t], g.walkers[t]);
  }

  // ----- the heap

  /** At every step the order is an arrangement of the original nodes, the heap spells it but for the
      links an exchange under way has still to write, and no other thread reads one of those. */
  lemma ChainIntegrity(cfg: Config, acts: seq<Action>)
    requires cfg.Valid()
    ensures var s, l := Exec(cfg, acts), History(cfg, acts).order;
      && Arrangement(l) && |l| == |cfg.lens| && Chained(s, l)
      && (forall t :: 0 <= t < |s.threads| && Reads(s.threads[t]) != NULL ==>
            exists i :: 0 <= i < |l| && Mended(s, i)
                        && l[i] == Reads(s.threads[t]) && s.mem.next[l[i]] == Succ(l, i))
  {
    Reachable(cfg, acts);
    var s, g := Exec(cfg, acts), History(cfg, acts);
    var l := g.order;
    forall t | 0 <= t < |s.threads| && Reads(s.threads[t]) != NULL
      ensures exists i :: 0 <= i < |l| && Mended(s, i)
                          && l[i] == Reads(s.threads[t]) && s.mem.next[l[i]] == Succ(l, i)
    {
      ReadsTrue(cfg, s, g, t);
    }
  }

  lemma ReadsTrue(cfg: Config, s: State, g: Shadow, t: nat)
    requires WellFormed(cfg, s) && AllTrack(cfg, s, g) && AllApart(cfg.shared, g) && Chained(s, g.order)
    requires Arrangement(g.order) && t < |s.threads| && Reads(s.threads[t]) != NULL
    ensures exists i :: 0 <= i < |g.order| && Mended(s, i)
                        && g.order[i] == Reads(s.threads[t]) && s.mem.next[g.order[i]] == Succ(g.order, i)
  {
    assert Tracks(cfg.lens, g.order, cfg.roles[t], s.threads[t], g.walkers[t]);
    ReadsAtFront(cfg.lens, g.order, cfg.roles[t], s.threads[t], g.walkers[t]);
    ReadIsSuccessor(cfg, s, g, t);
    assert g.order[g.walkers[t].high] == Reads(s.threads[t]);
  }

  /** Two threads hold the same node only if both are searchers of the rwlock build. */
  lemma MutualExclusion(cfg: Config, acts: seq<Action>, t: nat, u: nat, x: int)
    requires cfg.Valid() && t < |cfg.roles| && u < |cfg.roles| && t != u
    requires x in Held(Exec(cfg, acts).threads[t]) && x in Held(Exec(cfg, acts).threads[u])
    ensures cfg.Shares(t) && cfg.Shares(u)
  {
    Reachable(cfg, acts);
    var s, g := Exec(cfg, acts), History(cfg, acts);
    assert Tracks(cfg.lens, g.order, cfg.roles[t], s.threads[t], g.walkers[t]);
    var i := HeldInside(cfg.lens, g.order, cfg.roles[t], s.threads[t], g.walkers[t], x);
    assert LockKind(cfg, s.mem.locks[x]) && Owns(s.mem.locks[x], t) && Owns(s.mem.locks[x], u);
  }

  /** No searcher passes a swapper, no swapper passes anyone, and with exclusive locks nobody passes
      anybody: of two operations in the list, the one that locked `first` earlier is wholly ahead. */
  lemma {:induction false} NoOvertaking(cfg: Config, acts: seq<Action>, t: nat, u: nat, x: int, y: int)
    requires cfg.Valid() && t < |cfg.roles| && u < |cfg.roles| && t != u
    requires !(cfg.Shares(t) && cfg.Shares(u))
    requires x in Held(Exec(cfg, acts).threads[t]) && y in Held(Exec(cfg, acts).threads[u])
    requires |Before(cfg, acts, t)| <= |Before(cfg, acts, u)|
    ensures |Before(cfg, acts, t)| < |Before(cfg, acts, u)|
    ensures exists i, j :: 0 <= j < i < |cfg.lens| == |History(cfg, acts).order|
                           && History(cfg, acts).order[i] == x && History(cfg, acts).order[j] == y
  {
    Reachable(cfg, acts);
    AlwaysRecorded(cfg, acts, t);
    AlwaysRecorded(cfg, acts, u);
    var s, g := Exec(cfg, acts), History(cfg, acts);
    assert Tracks(cfg.lens, g.order, cfg.roles[t], s.threads[t], g.walkers[t]);
    assert Tracks(cfg.lens, g.order, cfg.roles[u], s.threads[u], g.walkers[u]);
    var i := HeldInside(cfg.lens, g.order, cfg.roles[t], s.threads[t], g.walkers[t], x);
    var j := HeldInside(cfg.lens, g.order, cfg.roles[u], s.threads[u], g.walkers[u], y);
    LowHeld(cfg.lens, g.order, cfg.roles[t], s.threads[t], g.walkers[t]);
    LowHeld(cfg.lens, g.order, cfg.roles[u], s.threads[u], g.walkers[u]);
    assert Apart(cfg.shared, g.walkers[t], g.walkers[u]);
  }

  // ----- race freedom

  /** The node whose `next` thread th reads in its next step, including the read of the second write. */
  function ReadsNext(th: Thread): int {
    if th.pc.Write2? then th.nxt else Reads(th)
  }

  /** The node whose `next` it writes. */
  function WritesNext(th: Thread): int {
    match th.pc
    case Write1 => th.prev
    case Write2 => th.cur
    case Write3 => th.nxt
    case _ => NULL
  }

  lemma StepWritesThere(cfg: Config, m: Memory, t: nat, th: Thread, choice: nat, x: int)
    requires MemoryOk(cfg, m) && PointsInside(cfg, th) && t < |cfg.roles| && 0 <= x < |m.next|
    requires ThreadStep(cfg, m, t, th, choice).mem.next[x] != m.next[x]
    ensures x == WritesNext(th)
  {
  }

  /** A step depends on no other `next` than the one it reads: with any other value anywhere else the thread
      goes on in the same way, and writes the same. */
  lemma StepReadsThere(cfg: Config, m: Memory, t: nat, th: Thread, choice: nat, x: int, v: int)
    requires MemoryOk(cfg, m) && PointsInside(cfg, th) && t < |cfg.roles|
    requires 0 <= x < |m.next| && NULL <= v < |cfg.lens| && x != ReadsNext(th)
    ensures var m' := m.(next := m.next[x := v]);
      var r, r' := ThreadStep(cfg, m, t, th, choice), ThreadStep(cfg, m', t, th, choice);
      && r'.th == r.th
      && (cfg.roles[t].Swapper? && WritesNext(th) != NULL ==>
            r'.mem.next[WritesNext(th)] == r.mem.next[WritesNext(th)])
  {
    match cfg.roles[t]
    case Searcher(f) => SearcherReadsThere(cfg, m, t, th, f, x, v);
    case Swapper(f) =>
      SwapperReadsThere(cfg, m, t, th, f, choice, x, v);
      SwapperWritesSame(cfg, m, t, th, f, choice, x, v);
  }

  lemma SearcherReadsThere(cfg: Config, m: Memory, t: nat, th: Thread, f: Flavor, x: int, v: int)
    requires MemoryOk(cfg, m) && PointsInside(cfg, th)
    requires 0 <= x < |m.next| && NULL <= v < |cfg.lens| && x != ReadsNext(th)
    ensures SearcherStep(cfg, m.(next := m.next[x := v]), t, th, f).th == SearcherStep(cfg, m, t, th, f).th
  {
  }

  lemma SwapperReadsThere(cfg: Config, m: Memory, t: nat, th: Thread, f: Flavor, choice: nat, x: int, v: int)
    requires MemoryOk(cfg, m) && PointsInside(cfg, th)
    requires 0 <= x < |m.next| && NULL <= v < |cfg.lens| && x != ReadsNext(th)
    ensures SwapperStep(cfg, m.(next := m.next[x := v]), t, th, f, choice).th == SwapperStep(cfg, m, t, th, f, choice).th
  {
  }

  lemma SwapperWritesSame(cfg: Config, m: Memory, t: nat, th: Thread, f: Flavor, choice: nat, x: int, v: int)
    requires MemoryOk(cfg, m) && PointsInside(cfg, th)
    requires 0 <= x < |m.next| && NULL <= v < |cfg.lens| && x != ReadsNext(th)
    ensures var r, r' := SwapperStep(cfg, m, t, th, f, choice), SwapperStep(cfg, m.(next := m.next[x := v]), t, th, f, choice);
      WritesNext(th) != NULL ==> r'.mem.next[WritesNext(th)] == r.mem.next[WritesNext(th)]
  {
  }

  lemma AccessesHeld(lens: seq<nat>, l: seq<nat>, role: Role, th: Thread, w: Walker)
    requires Tracks(lens, l, role, th, w)
    ensures ReadsNext(th) != NULL ==> ReadsNext(th) in Held(th)
    ensures WritesNext(th) != NULL ==> WritesNext(th) in Held(th) && role.Swapper?
  {
  }

  /** A thread reads a `next` only while it holds the lock of that node, and writes one only while it holds
      it exclusively. */
  lemma LockProtects(cfg: Config, acts: seq<Action>, t: nat)
    requires cfg.Valid() && t < |cfg.roles|
    ensures var m, th := Exec(cfg, acts).mem, Exec(cfg, acts).threads[t];
      && (ReadsNext(th) != NULL ==> 0 <= ReadsNext(th) < |m.locks| && Owns(m.locks[ReadsNext(th)], t))
      && (WritesNext(th) != NULL ==> 0 <= WritesNext(th) < |m.locks| && m.locks[WritesNext(th)] == Exclusive(t))
  {
    Reachable(cfg, acts);
    HeldProtects(cfg, Exec(cfg, acts), History(cfg, acts), t);
  }

  lemma HeldProtects(cfg: Config, s: State, g: Shadow, t: nat)
    requires WellFormed(cfg, s) && AllTrack(cfg, s, g) && LocksMatch(cfg, s) && t < |s.threads|
    ensures var m, th := s.mem, s.threads[t];
      && (ReadsNext(th) != NULL ==> 0 <= ReadsNext(th) < |m.locks| && Owns(m.locks[ReadsNext(th)], t))
      && (WritesNext(th) != NULL ==> 0 <= WritesNext(th) < |m.locks| && m.locks[WritesNext(th)] == Exclusive(t))
  {
    var th := s.threads[t];
    assert PointsInside(cfg, s.threads[t]);
    assert Tracks(cfg.lens, g.order, cfg.roles[t], s.threads[t], g.walkers[t]);
    AccessesHeld(cfg.lens, g.order, cfg.roles[t], th, g.walkers[t]);
    if WritesNext(th) != NULL {
      assert LockKind(cfg, s.mem.locks[WritesNext(th)]) && Owns(s.mem.locks[WritesNext(th)], t);
    }
  }

  /** Race freedom: no two threads are ever about to access the same `next` with one of them writing it. */
  lemma NoRace(cfg: Config, acts: seq<Action>, t: nat, u: nat)
    requires cfg.Valid() && t < |cfg.roles| && u < |cfg.roles| && t != u
    requires WritesNext(Exec(cfg, acts).threads[t]) != NULL
    ensures ReadsNext(Exec(cfg, acts).threads[u]) != WritesNext(Exec(cfg, acts).threads[t])
    ensures WritesNext(Exec(cfg, acts).threads[u]) != WritesNext(Exec(cfg, acts).threads[t])
  {
    LockProtects(cfg, acts, t);
    LockProtects(cfg, acts, u);
  }
}
