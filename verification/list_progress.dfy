/** Nothing gets stuck: some thread can always move, although swaps keep changing the lock order,
    and after `stop` every run is over within a bounded number of steps. */
module ListProgress {
  import opened ListOps
  import opened Sums
  import opened Traversals
  import opened LockedList
  import opened ListSimulation
  import opened ListSteps
  import opened ListTheorems
  import opened Rounds

  // ----- deadlock freedom

  /** The node thread th is waiting to lock, if it is at a lock operation. */
  function Asked(th: Thread): int {
    match th.pc
    case LockFirst => 0
    case LockA | LockCur => th.cur
    case LockB | WalkLock | LockRight => th.nxt
    case _ => NULL
  }

  /** A thread that has not returned moves unless the lock it asks for is taken. */
  lemma SearcherMoves(cfg: Config, m: Memory, l: seq<nat>, t: nat, th: Thread, w: Walker, f: Flavor)
    requires MemoryOk(cfg, m) && PointsInside(cfg, th) && SearcherTracks(cfg.lens, l, f, th, w)
    requires !th.pc.Done? && (Asked(th) != NULL ==> CanTake(m.locks[Asked(th)], cfg.Shares(t)))
    ensures SearcherStep(cfg, m, t, th, f).th.pc != th.pc
  {
  }

  lemma SwapperMoves(cfg: Config, m: Memory, l: seq<nat>, t: nat, th: Thread, w: Walker, f: Flavor, choice: nat)
    requires MemoryOk(cfg, m) && PointsInside(cfg, th) && SwapperTracks(cfg.lens, l, f, th, w)
    requires 0 < |l| && l[0] == 0
    requires !th.pc.Done? && (Asked(th) != NULL ==> CanTake(m.locks[Asked(th)], cfg.Shares(t)))
    ensures SwapperStep(cfg, m, t, th, f, choice).th.pc != th.pc
  {
  }

  /** A waiting thread waits at the head or right ahead of its window. */
  lemma AsksAhead(lens: seq<nat>, l: seq<nat>, role: Role, th: Thread, w: Walker)
    requires Tracks(lens, l, role, th, w) && Asked(th) != NULL && 0 < |l| && l[0] == 0
    ensures if w.In? then w.high + 1 < |l| && Asked(th) == l[w.high + 1] else Asked(th) == l[0]
  {
  }

  /** A thread inside the list has not returned. */
  lemma InsideIsBusy(lens: seq<nat>, l: seq<nat>, role: Role, th: Thread, w: Walker)
    requires Tracks(lens, l, role, th, w) && w.In?
    ensures !th.pc.Done?
  {
  }

  ghost predicate CanMove(cfg: Config, s: State, t: nat)
    requires WellFormed(cfg, s)
  {
    t < |s.threads| && Step(cfg, s, Run(t, 0)).threads[t].pc != s.threads[t].pc
  }

  lemma Unblocked(cfg: Config, s: State, g: Shadow, t: nat)
    requires WellFormed(cfg, s) && AllTrack(cfg, s, g) && Arrangement(g.order) && t < |s.threads|
    requires !s.threads[t].pc.Done?
    requires Asked(s.threads[t]) != NULL ==> CanTake(s.mem.locks[Asked(s.threads[t])], cfg.Shares(t))
    ensures CanMove(cfg, s, t)
  {
    assert Tracks(cfg.lens, g.order, cfg.roles[t], s.threads[t], g.walkers[t]);
    match cfg.roles[t]
    case Searcher(f) => SearcherMoves(cfg, s.mem, g.order, t, s.threads[t], g.walkers[t], f);
    case Swapper(f) => SwapperMoves(cfg, s.mem, g.order, t, s.threads[t], g.walkers[t], f, 0);
  }

  /** Among the first n walkers, the one inside the list whose window reaches furthest. */
  lemma {:induction false} Furthest(ws: seq<Walker>, n: nat) returns (t: nat)
    requires n <= |ws| && exists u :: 0 <= u < n && ws[u].In?
    ensures t < n && ws[t].In?
    ensures forall u :: 0 <= u < n && ws[u].In? ==> ws[u].high <= ws[t].high
  {
    if u :| 0 <= u < n - 1 && ws[u].In? {
      t := Furthest(ws, n - 1);
      if ws[n - 1].In? && ws[n - 1].high > ws[t].high { t := n - 1; }
    } else {
      t := n - 1;
    }
  }

  /** A node beyond every window is free. */
  lemma FreeAhead(cfg: Config, s: State, g: Shadow, i: nat)
    requires AllTrack(cfg, s, g) && LocksMatch(cfg, s) && Arrangement(g.order)
    requires i < |g.order| && |s.mem.locks| == |g.order|
    requires forall u :: 0 <= u < |g.walkers| && g.walkers[u].In? ==> g.walkers[u].high < i
    ensures s.mem.locks[g.order[i]].Free?
  {
    LockedBySomeone(cfg, s, g.order[i]);
    forall u | 0 <= u < |s.threads| && g.order[i] as int in Held(s.threads[u])
      ensures false
    {
      assert Tracks(cfg.lens, g.order, cfg.roles[u], s.threads[u], g.walkers[u]);
      var j := HeldInside(cfg.lens, g.order, cfg.roles[u], s.threads[u], g.walkers[u], g.order[i]);
    }
  }

  lemma SomeoneMoves(cfg: Config, s: State, g: Shadow, t: nat) returns (u: nat)
    requires WellFormed(cfg, s) && AllTrack(cfg, s, g) && LocksMatch(cfg, s) && Arrangement(g.order)
    requires t < |s.threads| && !s.threads[t].pc.Done?
    ensures CanMove(cfg, s, u)
  {
    if v :| 0 <= v < |g.walkers| && g.walkers[v].In? {
      u := Furthest(g.walkers, |g.walkers|);
    } else {
      u := t;
    }
    var th, w := s.threads[u], g.walkers[u];
    assert Tracks(cfg.lens, g.order, cfg.roles[u], s.threads[u], g.walkers[u]);
    if w.In? { InsideIsBusy(cfg.lens, g.order, cfg.roles[u], th, w); }
    if Asked(th) != NULL {
      AsksAhead(cfg.lens, g.order, cfg.roles[u], th, w);
      FreeAhead(cfg, s, g, if w.In? then w.high + 1 else 0);
    }
    Unblocked(cfg, s, g, u);
  }

  /** Deadlock freedom: as long as some thread has not returned, some thread can take a step. */
  lemma DeadlockFree(cfg: Config, acts: seq<Action>, t: nat)
    requires cfg.Valid() && t < |cfg.roles| && !Exec(cfg, acts).threads[t].pc.Done?
    ensures exists u :: CanMove(cfg, Exec(cfg, acts), u)
  {
    Reachable(cfg, acts);
    var u := SomeoneMoves(cfg, Exec(cfg, acts), History(cfg, acts), t);
  }

  // ----- draining

  /** How many steps thread th still has at most, once the program has been stopped. */
  function Weight(size: int, th: Thread, w: Walker): int {
    var ahead := if w.In? then size - w.low else 0;
    match th.pc
    case Done => 0
    case Idle => 1
    case Start | AddIter | EmptyCount | EmptyBail | BailPrev | UnlockPrev => 2
    case AddPairs | EmptyUnlock | BailCur | UnlockCur => 3
    case UnlockLast | UnlockNext => 4
    case AddSwap => 5
    case Write3 => 6
    case Write2 => 7
    case Write1 => 8
    case CompareLR => 9
    case LockRight => 10
    case ReadRight => 11
    case Walk => 12 + 3 * (th.left - th.i)
    case WalkLock => 11 + 3 * (th.left - th.i)
    case WalkUnlock => 10 + 3 * (th.left - th.i)
    case LockCur => 13 + 3 * th.left
    case ReadCur => 14 + 3 * th.left
    case UnlockA => 2 + 4 * ahead
    case CompareAB => 3 + 4 * ahead
    case LockB => 4 + 4 * ahead
    case ReadB => 5 + 4 * ahead
    case UnlockFirst => 6 + 4 * size
    case LockA => 7 + 4 * size
    case ReadA => 8 + 4 * size
    case LockFirst => 16 + 4 * size + 3 * th.left
    case Choose => 17 + 7 * size
  }

  lemma WeightNonNegative(lens: seq<nat>, l: seq<nat>, role: Role, th: Thread, w: Walker)
    requires Tracks(lens, l, role, th, w) && 1 <= |l|
    ensures 0 <= Weight(|l| - 1, th, w)
    ensures Weight(|l| - 1, th, w) == 0 ==> th.pc.Done?
  {
  }

  /** Does thread th go on with an operation, or to its end, and not start another? */
  predicate GoesOn(m: Memory, th: Thread) {
    m.running ==> !th.pc.Idle?
  }

  /** A step that starts no operation either changes nothing at all or makes the thread's weight smaller. */
  ghost predicate Lighter(size: int, m: Memory, th: Thread, w: Walker, r: Move, g: Shadow, e: Event) {
    if r.th == th then r.mem == m && e.Quiet?
    else Weight(size, r.th, Moved(g, w, e)) < Weight(size, th, w)
  }

  lemma SearcherLightens(cfg: Config, m: Memory, g: Shadow, t: nat, th: Thread, w: Walker, f: Flavor)
    requires Headed(cfg, m, g, th) && SearcherTracks(cfg.lens, g.order, f, th, w) && GoesOn(m, th)
    requires w.In? ==> ReadsSuccessor(m.next, g.order, w)
    ensures Lighter(cfg.Size(), m, th, w, SearcherStep(cfg, m, t, th, f), g, SearcherEvent(cfg, m, t, th, f))
  {
  }

  /** Is thread th on its way to the two nodes it will compare? */
  predicate Approaching(th: Thread) {
    th.pc.ReadCur? || th.pc.LockCur? || th.pc.Walk? || th.pc.WalkLock? || th.pc.WalkUnlock? || th.pc.ReadRight?
  }

  lemma ApproachLightens(cfg: Config, m: Memory, g: Shadow, t: nat, th: Thread, w: Walker, f: Flavor, choice: nat)
    requires Headed(cfg, m, g, th) && SwapperTracks(cfg.lens, g.order, f, th, w) && GoesOn(m, th) && Approaching(th)
    ensures Lighter(cfg.Size(), m, th, w, SwapperStep(cfg, m, t, th, f, choice), g, SwapperEvent(cfg, m, t, th, f))
  {
  }

  lemma RestLightens(cfg: Config, m: Memory, g: Shadow, t: nat, th: Thread, w: Walker, f: Flavor, choice: nat)
    requires Headed(cfg, m, g, th) && SwapperTracks(cfg.lens, g.order, f, th, w) && GoesOn(m, th) && !Approaching(th)
    ensures Lighter(cfg.Size(), m, th, w, SwapperStep(cfg, m, t, th, f, choice), g, SwapperEvent(cfg, m, t, th, f))
  {
  }

  lemma SwapperLightens(cfg: Config, m: Memory, g: Shadow, t: nat, th: Thread, w: Walker, f: Flavor, choice: nat)
    requires Headed(cfg, m, g, th) && SwapperTracks(cfg.lens, g.order, f, th, w) && GoesOn(m, th)
    ensures Lighter(cfg.Size(), m, th, w, SwapperStep(cfg, m, t, th, f, choice), g, SwapperEvent(cfg, m, t, th, f))
  {
    if Approaching(th) { ApproachLightens(cfg, m, g, t, th, w, f, choice); }
    else { RestLightens(cfg, m, g, t, th, w, f, choice); }
  }

  function Weights(size: int, threads: seq<Thread>, walkers: seq<Walker>): seq<int>
    requires |threads| == |walkers|
  {
    seq(|threads|, t requires 0 <= t < |threads| => Weight(size, threads[t], walkers[t]))
  }

  /** The steps all threads together still have at most. */
  function Total(cfg: Config, s: State, g: Shadow): int
    requires |s.threads| == |g.walkers|
  {
    Sum(Weights(cfg.Size(), s.threads, g.walkers))
  }

  ghost function Measure(cfg: Config, acts: seq<Action>): int
    requires cfg.Valid()
  {
    var s, g := Exec(cfg, acts), History(cfg, acts);
    if |s.threads| == |g.walkers| then Total(cfg, s, g) else 0
  }

  lemma ThreadLightens(cfg: Config, s: State, g: Shadow, t: nat, choice: nat)
    requires Sim(cfg, s, g) && t < |s.threads| && GoesOn(s.mem, s.threads[t])
    ensures Lighter(cfg.Size(), s.mem, s.threads[t], g.walkers[t], ThreadStep(cfg, s.mem, t, s.threads[t], choice),
                    g, ThreadEvent(cfg, s.mem, t, s.threads[t]))
  {
    var th, w := s.threads[t], g.walkers[t];
    assert Tracks(cfg.lens, g.order, cfg.roles[t], s.threads[t], g.walkers[t]);
    match cfg.roles[t]
    case Searcher(f) =>
      assert Sound(cfg.lens, Fresh(cfg.Size()), g.order, g.log, g.walkers[t]);
      if w.In? { ReadIsSuccessor(cfg, s, g, t); }
      SearcherLightens(cfg, s.mem, g, t, th, w, f);
    case Swapper(f) => SwapperLightens(cfg, s.mem, g, t, th, w, f, choice);
  }

  /** With it the weight of all threads together falls. */
  lemma TotalDrops(cfg: Config, s: State, g: Shadow, t: nat, choice: nat)
    requires Sim(cfg, s, g) && t < |s.threads| && GoesOn(s.mem, s.threads[t])
    ensures var s', g' := Step(cfg, s, Run(t, choice)), Advance(cfg.lens, g, EventOf(cfg, s, Run(t, choice)));
      && |s'.threads| == |g'.walkers| && s'.mem.running == s.mem.running
      && (if s' == s then g' == g else Total(cfg, s', g') < Total(cfg, s, g))
  {
    var s', g' := Step(cfg, s, Run(t, choice)), Advance(cfg.lens, g, EventOf(cfg, s, Run(t, choice)));
    ThreadLightens(cfg, s, g, t, choice);
    EventIsOwn(cfg, s, t);
    StaysStopped(cfg, s.mem, t, s.threads[t], choice);
    var d, d' := Weights(cfg.Size(), s.threads, g.walkers), Weights(cfg.Size(), s'.threads, g'.walkers);
    assert d' == d[t := d'[t]];
    SumUpdate(d, t, d'[t]);
    if s'.threads[t] == s.threads[t] { assert s'.threads == s.threads; }
  }

  /** After `stop`, every step that changes anything makes the measure smaller. */
  lemma MeasureDrops(cfg: Config, acts: seq<Action>, a: Action)
    requires cfg.Valid() && !Exec(cfg, acts).mem.running
    ensures !Exec(cfg, acts + [a]).mem.running
    ensures Exec(cfg, acts + [a]) != Exec(cfg, acts) ==> Measure(cfg, acts + [a]) < Measure(cfg, acts)
    ensures Exec(cfg, acts + [a]) == Exec(cfg, acts) ==> Measure(cfg, acts + [a]) == Measure(cfg, acts)
  {
    assert (acts + [a])[..|acts|] == acts;
    Reachable(cfg, acts);
    if a.Run? && a.t < |cfg.roles| { TotalDrops(cfg, Exec(cfg, acts), History(cfg, acts), a.t, a.choice); }
  }

  lemma StaysStopped(cfg: Config, m: Memory, t: nat, th: Thread, choice: nat)
    requires MemoryOk(cfg, m) && PointsInside(cfg, th) && t < |cfg.roles|
    ensures ThreadStep(cfg, m, t, th, choice).mem.running == m.running
  {
  }

  /** How many actions of `more`, run after `acts`, change the state. */
  ghost function RealSteps(cfg: Config, acts: seq<Action>, more: seq<Action>): nat
    requires cfg.Valid()
    decreases |more|
  {
    if more == [] then 0
    else
      RealSteps(cfg, acts + [more[0]], more[1..])
      + if Exec(cfg, acts + [more[0]]) != Exec(cfg, acts) then 1 else 0
  }

  /** Draining: once the program has been stopped, no schedule has more than Measure real steps. */
  lemma {:induction false} Drains(cfg: Config, acts: seq<Action>, more: seq<Action>)
    requires cfg.Valid() && !Exec(cfg, acts).mem.running
    ensures !Exec(cfg, acts + more).mem.running
    ensures 0 <= Measure(cfg, acts + more) <= Measure(cfg, acts) - RealSteps(cfg, acts, more)
    decreases |more|
  {
    if more == [] {
      assert acts + more == acts;
      MeasureNonNegative(cfg, acts);
    } else {
      var next := acts + [more[0]];
      assert next + more[1..] == acts + more;
      MeasureDrops(cfg, acts, more[0]);
      Drains(cfg, next, more[1..]);
      RealStepsUnfold(cfg, acts, more);
    }
  }

  lemma RealStepsUnfold(cfg: Config, acts: seq<Action>, more: seq<Action>)
    requires cfg.Valid() && more != []
    ensures RealSteps(cfg, acts, more)
         == RealSteps(cfg, acts + [more[0]], more[1..])
            + if Exec(cfg, acts + [more[0]]) != Exec(cfg, acts) then 1 else 0
  {
  }

  lemma MeasureNonNegative(cfg: Config, acts: seq<Action>)
    requires cfg.Valid()
    ensures 0 <= Measure(cfg, acts)
  {
    Reachable(cfg, acts);
    var s, g := Exec(cfg, acts), History(cfg, acts);
    forall t | 0 <= t < |s.threads|
      ensures 0 <= Weight(cfg.Size(), s.threads[t], g.walkers[t])
    {
      assert Tracks(cfg.lens, g.order, cfg.roles[t], s.threads[t], g.walkers[t]);
      WeightNonNegative(cfg.lens, g.order, cfg.roles[t], s.threads[t], g.walkers[t]);
    }
    SumNonNegative(Weights(cfg.Size(), s.threads, g.walkers));
  }

  ghost predicate AllReturned(s: State) {
    forall t :: 0 <= t < |s.threads| ==> s.threads[t].pc.Done?
  }

  /** From every reachable state, `stop` leads to a state where all threads have returned, no lock is
      held, and list and counters are those of the serial run. */
  lemma {:induction false} StopFinishes(cfg: Config, acts: seq<Action>) returns (more: seq<Action>)
    requires cfg.Valid()
    ensures var end := Exec(cfg, acts + [Stop] + more);
      && AllReturned(end)
      && (forall x :: 0 <= x < |end.mem.locks| ==> end.mem.locks[x].Free?)
      && Spells(end.mem.next, SerialList(cfg, HeadOrder(cfg, acts + [Stop] + more)))
  {
    var stopped := acts + [Stop];
    assert stopped[..|acts|] == acts;
    more := Finish(cfg, stopped);
    SerialEquivalence(cfg, stopped + more);
  }

  /** As long as some thread has not returned, one action brings the end nearer. */
  lemma Nearer(cfg: Config, acts: seq<Action>) returns (a: Action)
    requires cfg.Valid() && !Exec(cfg, acts).mem.running && !AllReturned(Exec(cfg, acts))
    ensures !Exec(cfg, acts + [a]).mem.running
    ensures 0 <= Measure(cfg, acts + [a]) < Measure(cfg, acts)
  {
    var t :| 0 <= t < |Exec(cfg, acts).threads| && !Exec(cfg, acts).threads[t].pc.Done?;
    DeadlockFree(cfg, acts, t);
    var u :| CanMove(cfg, Exec(cfg, acts), u);
    a := Run(u, 0);
    assert (acts + [a])[..|acts|] == acts;
    MeasureDrops(cfg, acts, a);
    MeasureNonNegative(cfg, acts + [a]);
  }

  lemma Finish(cfg: Config, acts: seq<Action>) returns (more: seq<Action>)
    requires cfg.Valid() && !Exec(cfg, acts).mem.running
    ensures AllReturned(Exec(cfg, acts + more))
  {
    MeasureNonNegative(cfg, acts);
    more := FinishWithin(cfg, acts, Measure(cfg, acts));
  }

  lemma OneActionMore(acts: seq<Action>, a: Action, rest: seq<Action>)
    ensures acts + [a] + rest == acts + ([a] + rest)
  {
  }

  lemma {:induction false} FinishWithin(cfg: Config, acts: seq<Action>, n: nat) returns (more: seq<Action>)
    requires cfg.Valid() && !Exec(cfg, acts).mem.running && Measure(cfg, acts) <= n
    ensures AllReturned(Exec(cfg, acts + more))
    decreases n
  {
    if AllReturned(Exec(cfg, acts)) {
      more := [];
      assert acts + more == acts;
    } else {
      var a := Nearer(cfg, acts);
      var rest := FinishWithin(cfg, acts + [a], n - 1);
      more := [a] + rest;
      OneActionMore(acts, a, rest);
    }
  }

  // ----- every run ends, not only some

  /** If nobody can move, the run is over: all threads have returned, every lock is free, and list and
      counters are those of the serial run. */
  lemma EndsSerial(cfg: Config, acts: seq<Action>)
    requires cfg.Valid() && forall u :: !CanMove(cfg, Exec(cfg, acts), u)
    ensures Ended(cfg, acts)
  {
    if !AllReturned(Exec(cfg, acts)) {
      var t :| 0 <= t < |Exec(cfg, acts).threads| && !Exec(cfg, acts).threads[t].pc.Done?;
      DeadlockFree(cfg, acts, t);
    }
    ReturnedIsSerial(cfg, acts);
  }

  /** All threads have returned, and what they leave is what the serial run leaves. */
  ghost predicate Ended(cfg: Config, acts: seq<Action>)
    requires cfg.Valid()
  {
    var s, ops := Exec(cfg, acts), HeadOrder(cfg, acts);
    && AllReturned(s)
    && Spells(s.mem.next, SerialList(cfg, ops))
    && (forall k: Counter :: Value(s.mem.counters, k) == SerialCount(cfg.lens, Fresh(cfg.Size()), ops, k))
    && (forall x :: 0 <= x < |s.mem.locks| ==> s.mem.locks[x].Free?)
  }

  lemma ReturnedIsSerial(cfg: Config, acts: seq<Action>)
    requires cfg.Valid() && AllReturned(Exec(cfg, acts))
    ensures Ended(cfg, acts)
  {
    SerialEquivalence(cfg, acts);
  }

  predicate Scheduled(acts: seq<Action>, t: nat) {
    exists i :: 0 <= i < |acts| && acts[i].Run? && acts[i].t == t
  }

  /** In a round every thread is scheduled, in any order and among any other actions. */
  predicate Round(cfg: Config, acts: seq<Action>) {
    forall t :: 0 <= t < |cfg.roles| ==> Scheduled(acts, t)
  }

  /** Whether a thread moves does not depend on the index it would draw. */
  lemma MovesAnyway(cfg: Config, s: State, t: nat, choice: nat)
    requires WellFormed(cfg, s) && CanMove(cfg, s, t)
    ensures Step(cfg, s, Run(t, choice)) != s
  {
  }

  /** A continuation without real steps leaves the state as it is at every action. */
  lemma {:induction false} IdleKeeps(cfg: Config, acts: seq<Action>, more: seq<Action>, i: nat)
    requires cfg.Valid() && RealSteps(cfg, acts, more) == 0 && i < |more|
    ensures Step(cfg, Exec(cfg, acts), more[i]) == Exec(cfg, acts)
    decreases |more|
  {
    RealStepsUnfold(cfg, acts, more);
    assert (acts + [more[0]])[..|acts|] == acts;
    if i > 0 { IdleKeeps(cfg, acts + [more[0]], more[1..], i - 1); }
  }

  /** A round without real steps means that all have returned. */
  lemma IdleRound(cfg: Config, acts: seq<Action>, round: seq<Action>)
    requires cfg.Valid() && Round(cfg, round) && RealSteps(cfg, acts, round) == 0
    ensures AllReturned(Exec(cfg, acts))
  {
    forall u ensures !CanMove(cfg, Exec(cfg, acts), u) {
      if CanMove(cfg, Exec(cfg, acts), u) {
        assert Scheduled(round, u);
        var i :| 0 <= i < |round| && round[i].Run? && round[i].t == u;
        MovesAnyway(cfg, Exec(cfg, acts), u, round[i].choice);
        IdleKeeps(cfg, acts, round, i);
      }
    }
    EndsSerial(cfg, acts);
  }

  lemma {:induction false} StaysReturned(cfg: Config, acts: seq<Action>, more: seq<Action>)
    requires cfg.Valid() && AllReturned(Exec(cfg, acts))
    ensures AllReturned(Exec(cfg, acts + more))
    decreases |more|
  {
    if more == [] {
      assert acts + more == acts;
    } else {
      assert (acts + [more[0]])[..|acts|] == acts;
      assert acts + [more[0]] + more[1..] == acts + more;
      ReturnedStep(cfg, Exec(cfg, acts), more[0]);
      StaysReturned(cfg, acts + [more[0]], more[1..]);
    }
  }

  lemma ReturnedStep(cfg: Config, s: State, a: Action)
    requires WellFormed(cfg, s) && AllReturned(s)
    ensures AllReturned(Step(cfg, s, a))
  {
  }

  lemma {:induction false} RealStepsSplit(cfg: Config, acts: seq<Action>, a: seq<Action>, b: seq<Action>)
    requires cfg.Valid()
    ensures RealSteps(cfg, acts, a + b) == RealSteps(cfg, acts, a) + RealSteps(cfg, acts + a, b)
    decreases |a|
  {
    if a == [] {
      assert a + b == b && acts + a == acts;
    } else {
      assert (a + b)[0] == a[0] && (a + b)[1..] == a[1..] + b;
      assert acts + [a[0]] + a[1..] == acts + a;
      RealStepsSplit(cfg, acts + [a[0]], a[1..], b);
      RealStepsUnfold(cfg, acts, a);
      RealStepsUnfold(cfg, acts, a + b);
    }
  }

  /** With fewer real steps than rounds, some round has none. */
  lemma {:induction false} QuietRound(cfg: Config, acts: seq<Action>, rounds: seq<seq<Action>>, n: nat) returns (i: nat)
    requires cfg.Valid() && RealSteps(cfg, acts, Flat(rounds)) <= n < |rounds|
    ensures i < |rounds| && RealSteps(cfg, acts + Flat(rounds[..i]), rounds[i]) == 0
    decreases n
  {
    RealStepsSplit(cfg, acts, rounds[0], Flat(rounds[1..]));
    if RealSteps(cfg, acts, rounds[0]) == 0 {
      i := 0;
      assert acts + Flat(rounds[..0]) == acts;
    } else {
      var k := QuietRound(cfg, acts + rounds[0], rounds[1..], n - 1);
      i := k + 1;
      OneRoundMore(acts, rounds, k);
    }
  }

  lemma OneRoundMore(acts: seq<Action>, rounds: seq<seq<Action>>, k: nat)
    requires k < |rounds|
    ensures acts + rounds[0] + Flat(rounds[1..][..k]) == acts + Flat(rounds[..k + 1])
  {
    assert rounds[..k + 1][1..] == rounds[1..][..k];
  }

  lemma ReturnedLater(cfg: Config, acts: seq<Action>, mid: seq<Action>, rest: seq<Action>)
    requires cfg.Valid() && AllReturned(Exec(cfg, acts + mid))
    ensures AllReturned(Exec(cfg, acts + (mid + rest)))
  {
    StaysReturned(cfg, acts + mid, rest);
    assert acts + mid + rest == acts + (mid + rest);
  }

  lemma FewRealSteps(cfg: Config, acts: seq<Action>, more: seq<Action>)
    requires cfg.Valid() && !Exec(cfg, acts).mem.running
    ensures RealSteps(cfg, acts, more) <= Measure(cfg, acts)
  {
    Drains(cfg, acts, more);
  }

  lemma RoundsReturn(cfg: Config, acts: seq<Action>, rounds: seq<seq<Action>>)
    requires cfg.Valid() && !Exec(cfg, acts).mem.running
    requires forall i :: 0 <= i < |rounds| ==> Round(cfg, rounds[i])
    requires Measure(cfg, acts) < |rounds|
    ensures AllReturned(Exec(cfg, acts + Flat(rounds)))
  {
    FewRealSteps(cfg, acts, Flat(rounds));
    var i := QuietRound(cfg, acts, rounds, RealSteps(cfg, acts, Flat(rounds)));
    var mid, rest := Flat(rounds[..i]), Flat(rounds[i..]);
    IdleRound(cfg, acts + mid, rounds[i]);
    ReturnedLater(cfg, acts, mid, rest);
    FlatSplit(rounds, i);
  }

  /** After `stop`, every schedule that keeps giving each thread its turn, for more rounds than the measure,
      ends with all threads returned and list and counters those of the serial run. */
  lemma FairRunsEnd(cfg: Config, acts: seq<Action>, rounds: seq<seq<Action>>)
    requires cfg.Valid() && !Exec(cfg, acts).mem.running
    requires forall i :: 0 <= i < |rounds| ==> Round(cfg, rounds[i])
    requires Measure(cfg, acts) < |rounds|
    ensures Ended(cfg, acts + Flat(rounds))
  {
    RoundsReturn(cfg, acts, rounds);
    ReturnedIsSerial(cfg, acts + Flat(rounds));
  }
}
