/** The program does its work: while it is running nobody returns, every operation can be completed whatever
    is under way, and every order of operations comes about in some run. */
module ListLiveness {
  import opened ListOps
  import opened Sums
  import opened Traversals
  import opened LockedList
  import opened ListSimulation
  import opened ListSteps
  import opened ListTheorems
  import opened ListProgress

  // ----- nobody returns before `stop`

  lemma OnlyStoppedReturn(cfg: Config, m: Memory, t: nat, th: Thread, choice: nat)
    requires MemoryOk(cfg, m) && PointsInside(cfg, th) && t < |cfg.roles|
    requires 2 <= cfg.Size() && m.running && !th.pc.Done?
    ensures !ThreadStep(cfg, m, t, th, choice).th.pc.Done?
  {
  }

  /** With two nodes or more, no thread has returned as long as the program is running. */
  lemma {:induction false} RunningNotDone(cfg: Config, acts: seq<Action>, t: nat)
    requires cfg.Valid() && 2 <= cfg.Size() && t < |cfg.roles| && Exec(cfg, acts).mem.running
    ensures !Exec(cfg, acts).threads[t].pc.Done?
  {
    if acts != [] {
      var before, a := acts[..|acts| - 1], acts[|acts| - 1];
      var s := Exec(cfg, before);
      if a.Run? && a.t < |s.threads| { StaysStopped(cfg, s.mem, a.t, s.threads[a.t], a.choice); }
      RunningNotDone(cfg, before, t);
      assert PointsInside(cfg, s.threads[t]);
      if a.Run? && a.t == t { OnlyStoppedReturn(cfg, s.mem, t, s.threads[t], a.choice); }
    }
  }

  // ----- runs from a given state on

  /** Only steps of threads, no `stop`. */
  predicate Runs(more: seq<Action>) {
    forall i :: 0 <= i < |more| ==> more[i].Run?
  }

  function After(cfg: Config, s: State, more: seq<Action>): (r: State)
    requires WellFormed(cfg, s)
    ensures WellFormed(cfg, r)
    decreases |more|
  {
    if more == [] then s else After(cfg, Step(cfg, s, more[0]), more[1..])
  }

  /** The history, likewise. */
  function Follow(cfg: Config, s: State, g: Shadow, more: seq<Action>): Shadow
    requires WellFormed(cfg, s)
    decreases |more|
  {
    if more == [] then g
    else Follow(cfg, Step(cfg, s, more[0]), Advance(cfg.lens, g, EventOf(cfg, s, more[0])), more[1..])
  }

  /** How often thread t comes back from an operation. */
  function Completed(cfg: Config, s: State, more: seq<Action>, t: nat): nat
    requires WellFormed(cfg, s)
    decreases |more|
  {
    if more == [] then 0
    else
      var s' := Step(cfg, s, more[0]);
      Completed(cfg, s', more[1..], t)
      + if t < |s.threads| && !s.threads[t].pc.Start? && !s.threads[t].pc.Idle? && s'.threads[t].pc.Idle? then 1 else 0
  }

  lemma {:induction false} AfterBoth(cfg: Config, s: State, g: Shadow, a: seq<Action>, b: seq<Action>, t: nat)
    requires WellFormed(cfg, s)
    ensures After(cfg, s, a + b) == After(cfg, After(cfg, s, a), b)
    ensures Follow(cfg, s, g, a + b) == Follow(cfg, After(cfg, s, a), Follow(cfg, s, g, a), b)
    ensures Completed(cfg, s, a + b, t) == Completed(cfg, s, a, t) + Completed(cfg, After(cfg, s, a), b, t)
    decreases |a|
  {
    if a == [] {
      assert a + b == b;
    } else {
      assert (a + b)[0] == a[0] && (a + b)[1..] == a[1..] + b;
      AfterBoth(cfg, Step(cfg, s, a[0]), Advance(cfg.lens, g, EventOf(cfg, s, a[0])), a[1..], b, t);
    }
  }

  lemma {:induction false} ExecAfter(cfg: Config, acts: seq<Action>, more: seq<Action>)
    requires cfg.Valid()
    ensures Exec(cfg, acts + more) == After(cfg, Exec(cfg, acts), more)
    ensures History(cfg, acts + more) == Follow(cfg, Exec(cfg, acts), History(cfg, acts), more)
    decreases |more|
  {
    if more == [] {
      assert acts + more == acts;
    } else {
      assert (acts + [more[0]])[..|acts|] == acts;
      assert acts + [more[0]] + more[1..] == acts + more;
      ExecAfter(cfg, acts + [more[0]], more[1..]);
    }
  }

  // ----- bringing everybody back

  /** A reachable situation while the program is running. */
  ghost predicate Live(cfg: Config, s: State, g: Shadow) {
    && 2 <= cfg.Size() && Sim(cfg, s, g) && s.mem.running
    && forall t :: 0 <= t < |s.threads| ==> !s.threads[t].pc.Done?
  }

  lemma LiveStep(cfg: Config, s: State, g: Shadow, a: Action)
    requires Live(cfg, s, g) && a.Run?
    ensures Live(cfg, Step(cfg, s, a), Advance(cfg.lens, g, EventOf(cfg, s, a)))
  {
    StepSimulates(cfg, s, g, a);
    if a.t < |s.threads| {
      assert PointsInside(cfg, s.threads[a.t]);
      StaysStopped(cfg, s.mem, a.t, s.threads[a.t], a.choice);
      OnlyStoppedReturn(cfg, s.mem, a.t, s.threads[a.t], a.choice);
    }
  }

  ghost predicate AllIdle(s: State) {
    forall t :: 0 <= t < |s.threads| ==> s.threads[t].pc.Idle?
  }

  /** After `more`, a run of threads' steps only, everybody is idle and the program still running. */
  ghost predicate Rests(cfg: Config, s: State, g: Shadow, more: seq<Action>) {
    && WellFormed(cfg, s) && Runs(more)
    && AllIdle(After(cfg, s, more)) && Live(cfg, After(cfg, s, more), Follow(cfg, s, g, more))
  }

  lemma RestsAfterStep(cfg: Config, s: State, g: Shadow, t: nat, choice: nat, rest: seq<Action>)
    requires WellFormed(cfg, s)
    ensures var a := Run(t, choice);
      var s', g' := Step(cfg, s, a), Advance(cfg.lens, g, EventOf(cfg, s, a));
      && (Rests(cfg, s', g', rest) ==> Rests(cfg, s, g, [a] + rest))
      && Follow(cfg, s, g, [a] + rest) == Follow(cfg, s', g', rest)
      && (forall u :: Completed(cfg, s', rest, u) <= Completed(cfg, s, [a] + rest, u))
  {
    assert ([Run(t, choice)] + rest)[1..] == rest;
  }

  lemma RestsThen(cfg: Config, s: State, g: Shadow, first: seq<Action>, rest: seq<Action>)
    requires WellFormed(cfg, s) && Runs(first) && Rests(cfg, After(cfg, s, first), Follow(cfg, s, g, first), rest)
    ensures Rests(cfg, s, g, first + rest)
    ensures Follow(cfg, s, g, first + rest) == Follow(cfg, After(cfg, s, first), Follow(cfg, s, g, first), rest)
    ensures forall u :: Completed(cfg, s, first + rest, u)
                     == Completed(cfg, s, first, u) + Completed(cfg, After(cfg, s, first), rest, u)
  {
    AfterBoth(cfg, s, g, first, rest, 0);
    forall u
      ensures Completed(cfg, s, first + rest, u)
           == Completed(cfg, s, first, u) + Completed(cfg, After(cfg, s, first), rest, u)
    {
      AfterBoth(cfg, s, g, first, rest, u);
    }
  }

  lemma IdleIsOut(lens: seq<nat>, l: seq<nat>, role: Role, th: Thread, w: Walker)
    requires Tracks(lens, l, role, th, w) && th.pc.Idle?
    ensures !w.In?
  {
  }

  /** If thread u is furthest ahead, or nobody is in the list, u can move. */
  lemma FurthestMoves(cfg: Config, s: State, g: Shadow, u: nat)
    requires Live(cfg, s, g) && u < |s.threads| && !s.threads[u].pc.Idle?
    requires forall v :: 0 <= v < |g.walkers| && g.walkers[v].In? ==> g.walkers[u].In? && g.walkers[v].high <= g.walkers[u].high
    ensures CanMove(cfg, s, u)
  {
    var th, w := s.threads[u], g.walkers[u];
    assert Tracks(cfg.lens, g.order, cfg.roles[u], s.threads[u], g.walkers[u]);
    if Asked(th) != NULL {
      AsksAhead(cfg.lens, g.order, cfg.roles[u], th, w);
      FreeAhead(cfg, s, g, if w.In? then w.high + 1 else 0);
    }
    Unblocked(cfg, s, g, u);
  }

  /** Some thread that is in the middle of something can go on. */
  lemma BusyMoves(cfg: Config, s: State, g: Shadow) returns (u: nat)
    requires Live(cfg, s, g) && !AllIdle(s)
    ensures u < |s.threads| && !s.threads[u].pc.Idle? && CanMove(cfg, s, u)
  {
    if v :| 0 <= v < |g.walkers| && g.walkers[v].In? {
      u := Furthest(g.walkers, |g.walkers|);
      assert Tracks(cfg.lens, g.order, cfg.roles[u], s.threads[u], g.walkers[u]);
      if s.threads[u].pc.Idle? { IdleIsOut(cfg.lens, g.order, cfg.roles[u], s.threads[u], g.walkers[u]); }
    } else {
      u :| 0 <= u < |s.threads| && !s.threads[u].pc.Idle?;
    }
    FurthestMoves(cfg, s, g, u);
  }

  lemma TotalNonNegative(cfg: Config, s: State, g: Shadow)
    requires Sim(cfg, s, g)
    ensures 0 <= Total(cfg, s, g)
  {
    forall t | 0 <= t < |s.threads|
      ensures 0 <= Weight(cfg.Size(), s.threads[t], g.walkers[t])
    {
      assert Tracks(cfg.lens, g.order, cfg.roles[t], s.threads[t], g.walkers[t]);
      WeightNonNegative(cfg.lens, g.order, cfg.roles[t], s.threads[t], g.walkers[t]);
    }
    SumNonNegative(Weights(cfg.Size(), s.threads, g.walkers));
  }

  /** Has no thread begun an operation yet? */
  ghost predicate NoneBegun(s: State) {
    forall t :: 0 <= t < |s.threads| ==> s.threads[t].pc.Start? || s.threads[t].pc.Idle?
  }

  lemma StartingStep(cfg: Config, s: State, g: Shadow, u: nat)
    requires WellFormed(cfg, s) && |g.walkers| == |s.threads| && NoneBegun(s) && u < |s.threads| && s.threads[u].pc.Start?
    requires 2 <= cfg.Size()
    ensures NoneBegun(Step(cfg, s, Run(u, 0)))
    ensures Advance(cfg.lens, g, EventOf(cfg, s, Run(u, 0))).log == g.log
  {
    HeadOrderStep(cfg, s, g, Run(u, 0));
  }

  /** From every situation while the program is running, all threads can complete what they are doing. */
  lemma Settle(cfg: Config, s: State, g: Shadow) returns (more: seq<Action>)
    requires Live(cfg, s, g)
    ensures Rests(cfg, s, g, more) && (NoneBegun(s) ==> Follow(cfg, s, g, more).log == g.log)
  {
    TotalNonNegative(cfg, s, g);
    more := SettleWithin(cfg, s, g, Total(cfg, s, g));
  }

  lemma {:induction false} SettleWithin(cfg: Config, s: State, g: Shadow, n: nat) returns (more: seq<Action>)
    requires Live(cfg, s, g) && Total(cfg, s, g) <= n
    ensures Rests(cfg, s, g, more) && (NoneBegun(s) ==> Follow(cfg, s, g, more).log == g.log)
    decreases n
  {
    if AllIdle(s) {
      more := [];
    } else {
      var u := BusyMoves(cfg, s, g);
      var s', g' := Step(cfg, s, Run(u, 0)), Advance(cfg.lens, g, EventOf(cfg, s, Run(u, 0)));
      TotalDrops(cfg, s, g, u, 0);
      LiveStep(cfg, s, g, Run(u, 0));
      TotalNonNegative(cfg, s', g');
      var rest := SettleWithin(cfg, s', g', n - 1);
      more := [Run(u, 0)] + rest;
      RestsAfterStep(cfg, s, g, u, 0, rest);
      if NoneBegun(s) { StartingStep(cfg, s, g, u); }
    }
  }

  // ----- one operation from its start to its end

  /** An operation that thread t can be asked for: it is of its own kind, at an index that has a successor. */
  predicate Performs(cfg: Config, t: nat, op: Op) {
    && t < |cfg.roles|
    && cfg.roles[t] == (if op.Search? then Searcher(op.f) else Swapper(op.f))
    && (op.Swap? ==> op.left + 1 < cfg.Size())
  }

  function Draw(op: Op): nat {
    if op.Swap? then op.left else 0
  }

  ghost predicate Alone(s: State, t: nat) {
    forall u :: 0 <= u < |s.threads| && u != t ==> s.threads[u].pc.Idle?
  }

  /** Thread t is in operation op, which follows the operations of `log`. */
  ghost predicate Performing(cfg: Config, s: State, g: Shadow, t: nat, log: seq<Op>, op: Op) {
    && Live(cfg, s, g) && Alone(s, t) && Performs(cfg, t, op) && t < |s.threads|
    && Engaged(s.threads[t], g.log, log, op)
  }

  predicate Engaged(th: Thread, now: seq<Op>, log: seq<Op>, op: Op) {
    && !th.pc.Start? && !th.pc.Idle?
    && now == (if th.pc.Choose? || th.pc.LockFirst? then log else log + [op])
    && (th.pc.LockFirst? && op.Swap? ==> th.left == op.left)
    && (th.pc.Choose? ==> op.Swap?)
  }

  lemma PerformingMoves(cfg: Config, s: State, g: Shadow, t: nat, log: seq<Op>, op: Op)
    requires Performing(cfg, s, g, t, log, op)
    ensures Step(cfg, s, Run(t, Draw(op))) != s
  {
    forall v | 0 <= v < |g.walkers| && g.walkers[v].In?
      ensures v == t
    {
      assert Tracks(cfg.lens, g.order, cfg.roles[v], s.threads[v], g.walkers[v]);
      if v != t { IdleIsOut(cfg.lens, g.order, cfg.roles[v], s.threads[v], g.walkers[v]); }
    }
    FurthestMoves(cfg, s, g, t);
    MovesAnyway(cfg, s, t, Draw(op));
  }

  /** The one thread's step as its own and the log's. */
  lemma EngagedStep(cfg: Config, m: Memory, t: nat, th: Thread, now: seq<Op>, log: seq<Op>, op: Op)
    requires MemoryOk(cfg, m) && PointsInside(cfg, th) && Performs(cfg, t, op) && 2 <= cfg.Size()
    requires Engaged(th, now, log, op)
    ensures var th' := ThreadStep(cfg, m, t, th, Draw(op)).th;
      var taken := th.pc.LockFirst? && !th'.pc.LockFirst?;
      var now' := now + if taken then [OperationOf(cfg.roles[t], th)] else [];
      if th'.pc.Idle? then now' == log + [op] else Engaged(th', now', log, op)
  {
    SmallDraw(op.Swap?, Draw(op), cfg.Size() - 1);
  }

  lemma SmallDraw(swap: bool, k: nat, n: nat)
    requires swap ==> k < n
    ensures swap ==> k % n == k
  {
  }

  lemma PerformingStep(cfg: Config, s: State, g: Shadow, t: nat, log: seq<Op>, op: Op)
    requires Performing(cfg, s, g, t, log, op)
    ensures var a := Run(t, Draw(op));
      var s', g' := Step(cfg, s, a), Advance(cfg.lens, g, EventOf(cfg, s, a));
      && Live(cfg, s', g') && 0 <= Total(cfg, s', g') < Total(cfg, s, g)
      && (if s'.threads[t].pc.Idle? then AllIdle(s') && g'.log == log + [op] else Performing(cfg, s', g', t, log, op))
  {
    var a := Run(t, Draw(op));
    var s', g' := Step(cfg, s, a), Advance(cfg.lens, g, EventOf(cfg, s, a));
    PerformingMoves(cfg, s, g, t, log, op);
    TotalDrops(cfg, s, g, t, Draw(op));
    LiveStep(cfg, s, g, a);
    TotalNonNegative(cfg, s', g');
    HeadOrderStep(cfg, s, g, a);
    assert PointsInside(cfg, s.threads[t]);
    EngagedStep(cfg, s.mem, t, s.threads[t], g.log, log, op);
  }

  lemma LastStep(cfg: Config, s: State, g: Shadow, t: nat, log: seq<Op>, op: Op)
    requires Performing(cfg, s, g, t, log, op) && Step(cfg, s, Run(t, Draw(op))).threads[t].pc.Idle?
    ensures Rests(cfg, s, g, [Run(t, Draw(op))]) && Follow(cfg, s, g, [Run(t, Draw(op))]).log == log + [op]
    ensures 1 <= Completed(cfg, s, [Run(t, Draw(op))], t)
  {
    PerformingStep(cfg, s, g, t, log, op);
    RestsAfterStep(cfg, s, g, t, Draw(op), []);
    assert [Run(t, Draw(op))] + [] == [Run(t, Draw(op))];
  }

  lemma {:induction false} Perform(cfg: Config, s: State, g: Shadow, t: nat, log: seq<Op>, op: Op, n: nat)
    returns (more: seq<Action>)
    requires Performing(cfg, s, g, t, log, op) && Total(cfg, s, g) <= n
    ensures Rests(cfg, s, g, more)
    ensures Follow(cfg, s, g, more).log == log + [op] && 1 <= Completed(cfg, s, more, t)
    decreases n
  {
    var a := Run(t, Draw(op));
    var s', g' := Step(cfg, s, a), Advance(cfg.lens, g, EventOf(cfg, s, a));
    if s'.threads[t].pc.Idle? {
      more := [a];
      LastStep(cfg, s, g, t, log, op);
    } else {
      PerformingStep(cfg, s, g, t, log, op);
      var rest := Perform(cfg, s', g', t, log, op, n - 1);
      more := [a] + rest;
      RestsAfterStep(cfg, s, g, t, Draw(op), rest);
    }
  }

  lemma BeginStep(cfg: Config, s: State, g: Shadow, t: nat, op: Op)
    requires Live(cfg, s, g) && AllIdle(s) && Performs(cfg, t, op)
    ensures var s', g' := Step(cfg, s, Run(t, 0)), Advance(cfg.lens, g, EventOf(cfg, s, Run(t, 0)));
      Performing(cfg, s', g', t, g.log, op)
  {
    LiveStep(cfg, s, g, Run(t, 0));
    HeadOrderStep(cfg, s, g, Run(t, 0));
  }

  /** With everybody idle, any thread can complete any operation of its own, at any index it likes. */
  lemma Operate(cfg: Config, s: State, g: Shadow, t: nat, op: Op) returns (more: seq<Action>)
    requires Live(cfg, s, g) && AllIdle(s) && Performs(cfg, t, op)
    ensures Rests(cfg, s, g, more)
    ensures Follow(cfg, s, g, more).log == g.log + [op] && 1 <= Completed(cfg, s, more, t)
  {
    var s', g' := Step(cfg, s, Run(t, 0)), Advance(cfg.lens, g, EventOf(cfg, s, Run(t, 0)));
    BeginStep(cfg, s, g, t, op);
    TotalNonNegative(cfg, s', g');
    var rest := Perform(cfg, s', g', t, g.log, op, Total(cfg, s', g'));
    more := [Run(t, 0)] + rest;
    RestsAfterStep(cfg, s, g, t, 0, rest);
  }

  // ----- every order of operations happens

  /** Every thread named in `who` completes an operation during `more`. */
  ghost predicate AllComplete(cfg: Config, s: State, more: seq<Action>, who: seq<nat>)
    requires WellFormed(cfg, s)
  {
    forall i {:trigger who[i]} :: 0 <= i < |who| ==> 1 <= Completed(cfg, s, more, who[i])
  }

  ghost predicate Plan(cfg: Config, plan: seq<Op>, who: seq<nat>) {
    |who| == |plan| && forall i {:trigger plan[i]} :: 0 <= i < |plan| ==> Performs(cfg, who[i], plan[i])
  }

  lemma CompleteThen(cfg: Config, s: State, g: Shadow, first: seq<Action>, rest: seq<Action>, who: seq<nat>)
    requires WellFormed(cfg, s) && who != [] && 1 <= Completed(cfg, s, first, who[0])
    requires AllComplete(cfg, After(cfg, s, first), rest, who[1..])
    ensures AllComplete(cfg, s, first + rest, who)
  {
    forall i | 0 <= i < |who|
      ensures 1 <= Completed(cfg, s, first + rest, who[i])
    {
      AfterBoth(cfg, s, g, first, rest, who[i]);
      if i > 0 { assert who[i] == who[1..][i - 1]; }
    }
  }

  lemma PlanTail(cfg: Config, plan: seq<Op>, who: seq<nat>)
    requires Plan(cfg, plan, who) && plan != []
    ensures Performs(cfg, who[0], plan[0]) && Plan(cfg, plan[1..], who[1..])
  {
    assert Performs(cfg, who[0], plan[0]);
    forall i | 0 <= i < |plan| - 1
      ensures Performs(cfg, who[1..][i], plan[1..][i])
    {
      assert plan[1..][i] == plan[i + 1];
    }
  }

  lemma HeadAndTail<T>(l: seq<T>, plan: seq<T>)
    requires plan != []
    ensures l + [plan[0]] + plan[1..] == l + plan
  {
  }

  /** With everybody idle, the operations of a plan can be carried out in that order. */
  lemma {:induction false} CarryOut(cfg: Config, s: State, g: Shadow, plan: seq<Op>, who: seq<nat>)
    returns (more: seq<Action>)
    requires Live(cfg, s, g) && AllIdle(s) && Plan(cfg, plan, who)
    ensures Rests(cfg, s, g, more) && Follow(cfg, s, g, more).log == g.log + plan
    ensures AllComplete(cfg, s, more, who)
    decreases |plan|
  {
    if plan == [] {
      more := [];
    } else {
      PlanTail(cfg, plan, who);
      var first := Operate(cfg, s, g, who[0], plan[0]);
      var rest := CarryOut(cfg, After(cfg, s, first), Follow(cfg, s, g, first), plan[1..], who[1..]);
      more := first + rest;
      RestsThen(cfg, s, g, first, rest);
      CompleteThen(cfg, s, g, first, rest, who);
      HeadAndTail(g.log, plan);
    }
  }

  lemma LiveNow(cfg: Config, acts: seq<Action>)
    requires cfg.Valid() && 2 <= cfg.Size() && Exec(cfg, acts).mem.running
    ensures Live(cfg, Exec(cfg, acts), History(cfg, acts))
  {
    Reachable(cfg, acts);
    forall t | 0 <= t < |Exec(cfg, acts).threads|
      ensures !Exec(cfg, acts).threads[t].pc.Done?
    {
      RunningNotDone(cfg, acts, t);
    }
  }

  /** From every situation while the program is running it can come to rest and then carry out a plan. */
  lemma SettleAndCarryOut(cfg: Config, s: State, g: Shadow, plan: seq<Op>, who: seq<nat>)
    returns (first: seq<Action>, more: seq<Action>)
    requires Live(cfg, s, g) && Plan(cfg, plan, who)
    ensures Rests(cfg, s, g, first) && Rests(cfg, s, g, first + more)
    ensures Follow(cfg, s, g, first + more).log == Follow(cfg, s, g, first).log + plan
    ensures NoneBegun(s) ==> Follow(cfg, s, g, first).log == g.log
    ensures AllComplete(cfg, s, first + more, who)
  {
    first := Settle(cfg, s, g);
    more := CarryOut(cfg, After(cfg, s, first), Follow(cfg, s, g, first), plan, who);
    RestsThen(cfg, s, g, first, more);
  }

  lemma FromTheStart(cfg: Config, s: State, g: Shadow, plan: seq<Op>, who: seq<nat>) returns (more: seq<Action>)
    requires Live(cfg, s, g) && NoneBegun(s) && Plan(cfg, plan, who)
    ensures Rests(cfg, s, g, more) && Follow(cfg, s, g, more).log == g.log + plan
  {
    var first, rest := SettleAndCarryOut(cfg, s, g, plan, who);
    more := first + rest;
  }

  lemma NothingBefore<T>(plan: seq<T>)
    ensures [] + plan == plan
  {
  }

  lemma RestsInRun(cfg: Config, acts: seq<Action>, more: seq<Action>)
    requires cfg.Valid() && Rests(cfg, Exec(cfg, acts), History(cfg, acts), more)
    ensures Runs(more) && Exec(cfg, acts + more).mem.running && Quiescent(Exec(cfg, acts + more))
    ensures HeadOrder(cfg, acts + more) == Follow(cfg, Exec(cfg, acts), History(cfg, acts), more).log
  {
    ExecAfter(cfg, acts, more);
    LogIsHeadOrder(cfg, acts + more);
  }

  /** Every order of operations comes about: whatever operations of existing threads are asked for, at whatever
      indices, some run without `stop` makes exactly these lock `first`, in this order, and comes to rest. */
  lemma EveryOrderHappens(cfg: Config, plan: seq<Op>, who: seq<nat>) returns (acts: seq<Action>)
    requires cfg.Valid() && 2 <= cfg.Size() && Plan(cfg, plan, who)
    ensures Runs(acts) && Quiescent(Exec(cfg, acts)) && HeadOrder(cfg, acts) == plan
    ensures Spells(Exec(cfg, acts).mem.next, SerialList(cfg, plan))
  {
    LiveNow(cfg, []);
    acts := FromTheStart(cfg, Exec(cfg, []), History(cfg, []), plan, who);
    RestsInRun(cfg, [], acts);
    NothingBefore(acts);
    NothingBefore(plan);
    SerialEquivalence(cfg, acts);
  }

  // ----- everybody goes on

  /** How many operations thread t has completed. */
  ghost function Operations(cfg: Config, acts: seq<Action>, t: nat): nat
    requires cfg.Valid()
  {
    if acts == [] then 0
    else
      var before := acts[..|acts| - 1];
      Operations(cfg, before, t) + Completed(cfg, Exec(cfg, before), [acts[|acts| - 1]], t)
  }

  lemma {:induction false} OperationsAfter(cfg: Config, acts: seq<Action>, more: seq<Action>, t: nat)
    requires cfg.Valid()
    ensures Operations(cfg, acts + more, t) == Operations(cfg, acts, t) + Completed(cfg, Exec(cfg, acts), more, t)
    decreases |more|
  {
    if more == [] {
      assert acts + more == acts;
    } else {
      assert (acts + [more[0]])[..|acts|] == acts;
      assert acts + [more[0]] + more[1..] == acts + more;
      OperationsAfter(cfg, acts + [more[0]], more[1..], t);
      CompletedFirst(cfg, Exec(cfg, acts), more, t);
    }
  }

  lemma CompletedFirst(cfg: Config, s: State, more: seq<Action>, t: nat)
    requires WellFormed(cfg, s) && more != []
    ensures Completed(cfg, s, more, t)
         == Completed(cfg, s, [more[0]], t) + Completed(cfg, Step(cfg, s, more[0]), more[1..], t)
  {
    assert [more[0]][1..] == [];
  }

  /** One operation for every thread. */
  function OneEach(cfg: Config): (plan: seq<Op>)
    ensures |plan| == |cfg.roles|
  {
    seq(|cfg.roles|, t requires 0 <= t < |cfg.roles| => OperationOf(cfg.roles[t], Thread(Idle, 0, 0, 0, 0, 0, 0)))
  }

  /** While the program is running it never gets into a state from which some thread could not complete
      another operation: some run without `stop` gives every single one of them one more. */
  lemma EveryoneGoesOn(cfg: Config, acts: seq<Action>) returns (more: seq<Action>)
    requires cfg.Valid() && 2 <= cfg.Size() && Exec(cfg, acts).mem.running
    ensures Runs(more) && Exec(cfg, acts + more).mem.running && Quiescent(Exec(cfg, acts + more))
    ensures forall t :: 0 <= t < |cfg.roles| ==> Operations(cfg, acts, t) < Operations(cfg, acts + more, t)
  {
    var plan, who := OneEach(cfg), seq(|cfg.roles|, t => t);
    assert Plan(cfg, plan, who);
    LiveNow(cfg, acts);
    var first, rest := SettleAndCarryOut(cfg, Exec(cfg, acts), History(cfg, acts), plan, who);
    more := first + rest;
    RestsInRun(cfg, acts, more);
    forall t | 0 <= t < |cfg.roles|
      ensures Operations(cfg, acts, t) < Operations(cfg, acts + more, t)
    {
      assert who[t] == t;
      OperationsAfter(cfg, acts, more, t);
    }
  }
}
