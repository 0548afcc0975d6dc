/** Exit, join and detach take a bounded number of steps, and every run can be brought to a clean end. */
module LifecycleProgress {
  import opened Sums
  import opened Lifecycle
  import opened LifecycleInvariant
  import opened LifecycleSteps
  import opened LifecycleTheorems

  /** How many steps an agent at this place still has at most while its handle's word stays as it is. */
  function Rank(hd: Handle, t: nat, a: Agent): nat {
    match a.pc
    case Done | Crashed => 0
    case WakeReaper | FreeHandle => 1
    case AddCount | MarkReaped => 2
    case Unlock | ReadValue => 3
    case WriteTail => 4
    case LinkOld | WriteHead => 5
    case ReadOldTail => 6
    case ReadTail => 7
    case Lock => 8
    case Alloc => 9
    case CloneReaper => 10
    case StartReaper => 11
    case MarkQueued => 12
    case LoadState | LoadFinished => 13
    case WakeJoiner | TryJoin | TryDetach => 14
    case StoreFinished => 15
    case StoreValue | LoadWord => 16
    case Running => 17
    case CheckFinished => if hd.finished then 4 else 8
    case Wait => if hd.finished then 5 else 7
    case Asleep => if hd.finished then 5 else if t in hd.waiters then 6 else 9
  }

  /** Is a compare-exchange under way that is bound to fail? */
  predicate Stale(hd: Handle, a: Agent) {
    (a.pc.TryJoin? || a.pc.TryDetach?) && a.s != hd.word
  }

  /** An agent's share: its rank weighs more than any number of stale words, one per agent. */
  function Share(cfg: Config, m: Memory, t: nat, a: Agent): nat
    requires cfg.Valid() && t < cfg.Agents() && |m.handles| == cfg.size
  {
    var h := cfg.RoleOf(t).h;
    if h == NULL then One(!a.pc.Done?) else (cfg.Agents() + 1) * Rank(m.handles[h], t, a) + One(Stale(m.handles[h], a))
  }

  function Shares(cfg: Config, m: Memory, agents: seq<Agent>): seq<int>
    requires cfg.Valid() && |agents| == cfg.Agents() && |m.handles| == cfg.size
  {
    seq(|agents|, t requires 0 <= t < |agents| => Share(cfg, m, t, agents[t]))
  }

  /** Handles whose word the reaper may still change. */
  function Unreaped(m: Memory): seq<int> {
    seq(|m.handles|, h requires 0 <= h < |m.handles| => One(!m.handles[h].word.reaped))
  }

  /** What agents can still do, however the reaper runs beside them. */
  function Potential(cfg: Config, s: State): int
    requires WellFormed(cfg, s)
  {
    Sum(Shares(cfg, s.mem, s.agents)) + cfg.Agents() * Sum(Unreaped(s.mem))
  }

  // ----- sums that change at one place and move a little at the others

  lemma {:induction false} SumMonotone(xs: seq<int>, ys: seq<int>)
    requires |xs| == |ys| && forall i :: 0 <= i < |xs| ==> ys[i] <= xs[i]
    ensures Sum(ys) <= Sum(xs)
  {
    if xs != [] { SumMonotone(xs[1..], ys[1..]); }
  }

  lemma {:induction false} SumShifted(xs: seq<int>, ys: seq<int>)
    requires |xs| == |ys| && forall i :: 0 <= i < |xs| ==> ys[i] <= xs[i] + 1
    ensures Sum(ys) <= Sum(xs) + |xs|
  {
    if xs != [] { SumShifted(xs[1..], ys[1..]); }
  }

  /** One share falls by more than all the others can rise. */
  lemma SumFalls(xs: seq<int>, ys: seq<int>, t: nat)
    requires |xs| == |ys| && t < |xs| && ys[t] + |xs| < xs[t] + 1
    requires forall i :: 0 <= i < |xs| && i != t ==> ys[i] <= xs[i] + 1
    ensures Sum(ys) < Sum(xs)
  {
    var zs := xs[t := ys[t] - 1];
    SumUpdate(xs, t, ys[t] - 1);
    SumShifted(zs, ys);
  }

  lemma SumFallsAlone(xs: seq<int>, ys: seq<int>, t: nat)
    requires |xs| == |ys| && t < |xs| && ys[t] < xs[t]
    requires forall i :: 0 <= i < |xs| && i != t ==> ys[i] <= xs[i]
    ensures Sum(ys) < Sum(xs)
  {
    SumUpdate(xs, t, ys[t]);
    SumMonotone(xs[t := ys[t]], ys);
  }

  // ----- the agent that moves

  /** Outside the hand-over a step that changes anything lowers the rank, or refreshes a stale word. */
  lemma OwnTires(hd: Handle, t: nat, role: Role, a: Agent, choice: nat, fails: bool)
    requires OwnOk(hd, role, a) && !HandingOver(a.pc)
    ensures var o := OwnStep(hd, t, role, a, choice, fails);
      || (o.a == a && o.hd == hd)
      || Rank(o.hd, t, o.a) < Rank(hd, t, a)
      || (o.hd == hd && Rank(hd, t, o.a) == Rank(hd, t, a) && Stale(hd, a) && !Stale(hd, o.a))
  {
  }

  lemma LinkingTires(cfg: Config, m: Memory, t: nat, h: nat, a: Agent, fails: bool, hd: Handle)
    requires MemoryOk(cfg, m) && AgentInside(cfg, a) && t < cfg.Agents() && h < cfg.size && Unlinked(a.pc)
    ensures var o := HandOverStep(cfg, m, t, h, a, fails);
      (o.a == a && o.mem == m) || Rank(hd, t, o.a) < Rank(hd, t, a)
  {
  }

  lemma CountingTires(cfg: Config, m: Memory, t: nat, h: nat, a: Agent, fails: bool, hd: Handle)
    requires MemoryOk(cfg, m) && AgentInside(cfg, a) && t < cfg.Agents() && h < cfg.size && HandingOver(a.pc)
    requires !Unlinked(a.pc)
    ensures var o := HandOverStep(cfg, m, t, h, a, fails);
      (o.a == a && o.mem == m) || Rank(hd, t, o.a) < Rank(hd, t, a)
  {
  }

  lemma HandOverTires(cfg: Config, m: Memory, t: nat, h: nat, a: Agent, fails: bool, hd: Handle)
    requires MemoryOk(cfg, m) && AgentInside(cfg, a) && t < cfg.Agents() && h < cfg.size && HandingOver(a.pc)
    ensures var o := HandOverStep(cfg, m, t, h, a, fails);
      (o.a == a && o.mem == m) || Rank(hd, t, o.a) < Rank(hd, t, a)
  {
    if Unlinked(a.pc) { LinkingTires(cfg, m, t, h, a, fails, hd); } else { CountingTires(cfg, m, t, h, a, fails, hd); }
  }

  /** ... and never raises the rank of another agent of the same handle. */
  lemma OwnSparesRank(hd: Handle, t: nat, role: Role, a: Agent, choice: nat, fails: bool, u: nat, b: Agent)
    requires OwnOk(hd, role, a) && u != t
    ensures Rank(OwnStep(hd, t, role, a, choice, fails).hd, u, b) <= Rank(hd, u, b)
  {
  }

  lemma Multiplies(n: nat, x: int, y: int)
    requires x <= y
    ensures n * x <= n * y
  {
  }

  lemma OneMore(n: nat, x: int)
    ensures n * (x + 1) == n * x + n
  {
  }

  lemma Weighs(n: nat, r: nat, r': nat)
    ensures r' < r ==> (n + 1) * r' + n + 1 <= (n + 1) * r
    ensures r' <= r ==> (n + 1) * r' <= (n + 1) * r
  {
    if r' < r {
      Multiplies(n + 1, r' + 1, r);
      OneMore(n + 1, r');
    }
  }

  lemma ShareMoves(cfg: Config, m: Memory, m': Memory, t: nat, a: Agent, a': Agent)
    requires cfg.Valid() && t < cfg.Agents() && |m.handles| == |m'.handles| == cfg.size && cfg.RoleOf(t).h != NULL
    ensures var hd, hd' := m.handles[cfg.RoleOf(t).h], m'.handles[cfg.RoleOf(t).h];
      && (Rank(hd', t, a') < Rank(hd, t, a) ==> Share(cfg, m', t, a') + cfg.Agents() <= Share(cfg, m, t, a))
      && (Rank(hd', t, a') <= Rank(hd, t, a) ==> Share(cfg, m', t, a') <= Share(cfg, m, t, a) + 1)
      && (hd' == hd && Rank(hd, t, a') == Rank(hd, t, a) && Stale(hd, a) && !Stale(hd, a') ==>
            Share(cfg, m', t, a') < Share(cfg, m, t, a))
  {
    var h := cfg.RoleOf(t).h;
    Weighs(cfg.Agents(), Rank(m.handles[h], t, a), Rank(m'.handles[h], t, a'));
  }

  /** What the step of agent t means for the shares of all. */
  ghost predicate Falls(cfg: Config, s: State, s': State, t: nat)
    requires cfg.Valid() && |s.agents| == |s'.agents| == cfg.Agents() && t < |s.agents|
    requires |s.mem.handles| == |s'.mem.handles| == cfg.size
  {
    var xs, ys := Shares(cfg, s.mem, s.agents), Shares(cfg, s'.mem, s'.agents);
    || (ys[t] + |xs| <= xs[t] && forall u :: 0 <= u < |xs| && u != t ==> ys[u] <= xs[u] + 1)
    || (ys[t] < xs[t] && forall u :: 0 <= u < |xs| && u != t ==> ys[u] <= xs[u])
  }

  lemma OwnFalls(cfg: Config, s: State, g: Trail, t: nat, choice: nat, fails: bool)
    requires Inv(cfg, s, g) && t < |s.agents| && cfg.RoleOf(t).h != NULL && !HandingOver(s.agents[t].pc)
    requires Step(cfg, s, Run(t, choice, fails)) != s
    ensures Falls(cfg, s, Step(cfg, s, Run(t, choice, fails)), t)
  {
    var role, a, s' := cfg.RoleOf(t), s.agents[t], Step(cfg, s, Run(t, choice, fails));
    var hd := s.mem.handles[role.h];
    var o := OwnStep(hd, t, role, a, choice, fails);
    assert AgentOk(cfg, s.mem, g, t, s.agents[t]);
    OwnTires(hd, t, role, a, choice, fails);
    if o.a == a && o.hd == hd { Unmoved(cfg, s, t, choice, fails); }
    ShareMoves(cfg, s.mem, s'.mem, t, a, o.a);
    forall u | 0 <= u < |s.agents| && u != t
      ensures Share(cfg, s'.mem, u, s'.agents[u]) <= Share(cfg, s.mem, u, s.agents[u]) + 1
      ensures o.hd == hd ==> Share(cfg, s'.mem, u, s'.agents[u]) == Share(cfg, s.mem, u, s.agents[u])
    {
      OwnSparesRank(hd, t, role, a, choice, fails, u, s.agents[u]);
      if cfg.RoleOf(u).h != NULL { ShareMoves(cfg, s.mem, s'.mem, u, s.agents[u], s.agents[u]); }
    }
  }

  lemma Unmoved(cfg: Config, s: State, t: nat, choice: nat, fails: bool)
    requires WellFormed(cfg, s) && t < |s.agents| && cfg.RoleOf(t).h != NULL && !HandingOver(s.agents[t].pc)
    requires var o := OwnStep(s.mem.handles[cfg.RoleOf(t).h], t, cfg.RoleOf(t), s.agents[t], choice, fails);
      o.a == s.agents[t] && o.hd == s.mem.handles[cfg.RoleOf(t).h]
    ensures Step(cfg, s, Run(t, choice, fails)) == s
  {
    assert s.mem.handles[cfg.RoleOf(t).h := s.mem.handles[cfg.RoleOf(t).h]] == s.mem.handles;
    assert s.agents[t := s.agents[t]] == s.agents;
  }

  lemma HandOverFalls(cfg: Config, s: State, g: Trail, t: nat, choice: nat, fails: bool)
    requires Inv(cfg, s, g) && t < |s.agents| && cfg.RoleOf(t).h != NULL && HandingOver(s.agents[t].pc)
    requires Step(cfg, s, Run(t, choice, fails)) != s
    ensures Falls(cfg, s, Step(cfg, s, Run(t, choice, fails)), t)
  {
    var role, a, s' := cfg.RoleOf(t), s.agents[t], Step(cfg, s, Run(t, choice, fails));
    HandOverTires(cfg, s.mem, t, role.h, a, fails, s.mem.handles[role.h]);
    HandOverKeepsHandles(cfg, s.mem, t, role.h, a, fails);
    assert s.agents[t := s.agents[t]] == s.agents;
    ShareMoves(cfg, s.mem, s'.mem, t, a, s'.agents[t]);
    forall u | 0 <= u < |s.agents| && u != t
      ensures Share(cfg, s'.mem, u, s'.agents[u]) == Share(cfg, s.mem, u, s.agents[u])
    {
    }
  }

  lemma AgentFalls(cfg: Config, s: State, g: Trail, t: nat, choice: nat, fails: bool)
    requires Inv(cfg, s, g) && t < |s.agents| && Step(cfg, s, Run(t, choice, fails)) != s
    ensures Falls(cfg, s, Step(cfg, s, Run(t, choice, fails)), t)
  {
    if cfg.RoleOf(t).h == NULL {
      NullFalls(cfg, s, g, t, choice, fails);
    } else if HandingOver(s.agents[t].pc) {
      HandOverFalls(cfg, s, g, t, choice, fails);
    } else {
      OwnFalls(cfg, s, g, t, choice, fails);
    }
  }

  lemma NullFalls(cfg: Config, s: State, g: Trail, t: nat, choice: nat, fails: bool)
    requires Inv(cfg, s, g) && t < |s.agents| && cfg.RoleOf(t).h == NULL && Step(cfg, s, Run(t, choice, fails)) != s
    ensures Falls(cfg, s, Step(cfg, s, Run(t, choice, fails)), t)
  {
    assert AgentOk(cfg, s.mem, g, t, s.agents[t]);
    assert s.agents[t := s.agents[t]] == s.agents;
    var s' := Step(cfg, s, Run(t, choice, fails));
    assert s.agents[t].pc.LoadWord?;
    forall u | 0 <= u < |s.agents| && u != t
      ensures Share(cfg, s'.mem, u, s'.agents[u]) == Share(cfg, s.mem, u, s.agents[u])
    {
    }
  }

  lemma FallsSum(cfg: Config, s: State, s': State, t: nat)
    requires WellFormed(cfg, s) && WellFormed(cfg, s') && t < |s.agents| && Falls(cfg, s, s', t)
    ensures Sum(Shares(cfg, s'.mem, s'.agents)) < Sum(Shares(cfg, s.mem, s.agents))
  {
    var xs, ys := Shares(cfg, s.mem, s.agents), Shares(cfg, s'.mem, s'.agents);
    if ys[t] + |xs| <= xs[t] && forall u :: 0 <= u < |xs| && u != t ==> ys[u] <= xs[u] + 1 {
      SumFalls(xs, ys, t);
    } else {
      SumFallsAlone(xs, ys, t);
    }
  }

  lemma UnreapedFalls(m: Memory, m': Memory, t: int)
    requires Later(m, m', t)
    ensures Sum(Unreaped(m')) <= Sum(Unreaped(m))
  {
    forall h | 0 <= h < |m.handles| ensures Unreaped(m')[h] <= Unreaped(m)[h] {
      assert HandleLater(m.handles[h], m'.handles[h], h != t);
    }
    SumMonotone(Unreaped(m), Unreaped(m'));
  }

  /** Every step of an agent that changes anything uses up potential. */
  lemma AgentTires(cfg: Config, s: State, g: Trail, t: nat, choice: nat, fails: bool)
    requires Inv(cfg, s, g) && t < |s.agents| && Step(cfg, s, Run(t, choice, fails)) != s
    ensures Potential(cfg, Step(cfg, s, Run(t, choice, fails))) < Potential(cfg, s)
  {
    var s' := Step(cfg, s, Run(t, choice, fails));
    AgentFalls(cfg, s, g, t, choice, fails);
    FallsSum(cfg, s, s', t);
    assert AgentOk(cfg, s.mem, g, t, s.agents[t]);
    AgentLater(cfg, s.mem, g, t, s.agents[t], choice, fails);
    UnreapedFalls(s.mem, s'.mem, t);
    Multiplies(cfg.Agents(), Sum(Unreaped(s'.mem)), Sum(Unreaped(s.mem)));
  }

  // ----- the reaper beside them

  /** Marking a handle makes words stale, and uses up what was set aside for that. */
  lemma ReapMarks(cfg: Config, s: State, g: Trail, fails: bool)
    requires Inv(cfg, s, g) && s.reaper.pc.ReapMark? && !s.mem.handles[s.reaper.thread].word.reaped
    ensures Potential(cfg, Step(cfg, s, Reap(fails))) <= Potential(cfg, s)
  {
    var s', h := Step(cfg, s, Reap(fails)), s.reaper.thread;
    var xs, ys := Shares(cfg, s.mem, s.agents), Shares(cfg, s'.mem, s'.agents);
    forall u | 0 <= u < |xs| ensures ys[u] <= xs[u] + 1 { MarkedShare(cfg, s.mem, h, u, s.agents[u]); }
    SumShifted(xs, ys);
    assert Unreaped(s'.mem) == Unreaped(s.mem)[h := 0];
    SumUpdate(Unreaped(s.mem), h, 0);
    OneMore(cfg.Agents(), Sum(Unreaped(s'.mem)));
  }

  lemma MarkedShare(cfg: Config, m: Memory, h: nat, u: nat, b: Agent)
    requires cfg.Valid() && u < cfg.Agents() && h < |m.handles| == cfg.size
    ensures Share(cfg, SetHandle(m, h, ReapStep(m.handles[h], ReapMark)), u, b) <= Share(cfg, m, u, b) + 1
  {
  }

  ghost predicate SameForRank(hd: Handle, hd': Handle) {
    hd'.finished == hd.finished && hd'.waiters == hd.waiters && hd'.word == hd.word
  }

  lemma SameShares(cfg: Config, s: State, s': State)
    requires WellFormed(cfg, s) && WellFormed(cfg, s') && s'.agents == s.agents
    requires forall h :: 0 <= h < cfg.size ==> SameForRank(s.mem.handles[h], s'.mem.handles[h])
    ensures Potential(cfg, s') == Potential(cfg, s)
  {
    assert Shares(cfg, s'.mem, s'.agents) == Shares(cfg, s.mem, s.agents);
    assert Unreaped(s'.mem) == Unreaped(s.mem);
  }

  lemma ReaperSame(cfg: Config, m: Memory, r: Reaper, fails: bool, h: nat)
    requires MemoryOk(cfg, m) && ReaperInside(cfg, r) && h < cfg.size
    requires r.pc.ReapMark? && r.thread != NULL ==> m.handles[r.thread].word.reaped
    ensures SameForRank(m.handles[h], ReaperStep(cfg, m, r, fails).mem.handles[h])
  {
    ReaperRuns(cfg, m, r, fails);
    if Walking(r) { WalkTouches(cfg, m, r, h); } else if Dequeuing(r) { DequeueSparesHandles(cfg, m, r, fails); }
  }

  /** The reaper gives the agents nothing more to do. */
  lemma ReaperRests(cfg: Config, s: State, g: Trail, fails: bool)
    requires Inv(cfg, s, g)
    ensures Potential(cfg, Step(cfg, s, Reap(fails))) <= Potential(cfg, s)
  {
    if s.reaper.pc.ReapMark? && !s.mem.handles[s.reaper.thread].word.reaped {
      ReapMarks(cfg, s, g, fails);
    } else {
      forall h | 0 <= h < cfg.size
        ensures SameForRank(s.mem.handles[h], Step(cfg, s, Reap(fails)).mem.handles[h])
      {
        ReaperSame(cfg, s.mem, s.reaper, fails, h);
      }
      SameShares(cfg, s, Step(cfg, s, Reap(fails)));
    }
  }

  /** A spurious wake-up costs one sleeper three more steps. */
  lemma RouseCosts(cfg: Config, s: State, g: Trail, h: nat, k: nat)
    requires Inv(cfg, s, g)
    ensures Potential(cfg, Step(cfg, s, Rouse(h, k))) <= Potential(cfg, s) + 3 * (cfg.Agents() + 1)
  {
    var s' := Step(cfg, s, Rouse(h, k));
    if h < cfg.size && s.mem.handles[h].waiters != [] {
      assert WaitersOk(cfg, s.mem, s.agents, h);
      var u := s.mem.handles[h].waiters[0];
      var xs, ys := Shares(cfg, s.mem, s.agents), Shares(cfg, s'.mem, s'.agents);
      assert s'.mem.handles[h].waiters == [];
      forall v | 0 <= v < |xs| && v != u ensures ys[v] == xs[v] { }
      assert ys == xs[u := ys[u]];
      assert ys[u] <= xs[u] + 3 * (cfg.Agents() + 1) by { RousedShare(cfg, s.mem, s'.mem, u, s.agents[u]); }
      SumUpdate(xs, u, ys[u]);
      assert Unreaped(s'.mem) == Unreaped(s.mem);
    } else {
      SameShares(cfg, s, s');
    }
  }

  lemma RousedShare(cfg: Config, m: Memory, m': Memory, u: nat, a: Agent)
    requires cfg.Valid() && u < cfg.Agents() && |m.handles| == |m'.handles| == cfg.size
    requires 0 <= cfg.RoleOf(u).h && a.pc.Asleep?
    requires var hd, hd' := m.handles[cfg.RoleOf(u).h], m'.handles[cfg.RoleOf(u).h];
      u in hd.waiters && hd'.finished == hd.finished
    ensures Share(cfg, m', u, a) <= Share(cfg, m, u, a) + 3 * (cfg.Agents() + 1)
  {
    var n := cfg.Agents() + 1;
    assert n * 9 == n * 6 + 3 * n;
  }

  // ----- every run

  /** How many actions of a schedule are steps of agents that change something. */
  ghost function AgentSteps(cfg: Config, acts: seq<Action>): nat
    requires cfg.Valid()
  {
    if acts == [] then 0
    else
      var before, act := acts[..|acts| - 1], acts[|acts| - 1];
      AgentSteps(cfg, before) + if act.Run? && Exec(cfg, acts) != Exec(cfg, before) then 1 else 0
  }

  /** What the spurious wake-ups of joiners in a schedule may cost: one round of a wait loop each. */
  function Disturbance(cfg: Config, acts: seq<Action>): int {
    if acts == [] then 0
    else Disturbance(cfg, acts[..|acts| - 1]) + if acts[|acts| - 1].Rouse? then 3 * (cfg.Agents() + 1) else 0
  }

  lemma StepTires(cfg: Config, s: State, g: Trail, act: Action)
    requires Inv(cfg, s, g)
    ensures Potential(cfg, Step(cfg, s, act)) + (if act.Run? && Step(cfg, s, act) != s then 1 else 0)
         <= Potential(cfg, s) + if act.Rouse? then 3 * (cfg.Agents() + 1) else 0
  {
    match act
    case Run(t, choice, fails) =>
      if t < |s.agents| && Step(cfg, s, act) != s { AgentTires(cfg, s, g, t, choice, fails); }
    case Reap(fails) => ReaperRests(cfg, s, g, fails);
    case Rouse(h, k) => RouseCosts(cfg, s, g, h, k);
    case RouseReaper => SameShares(cfg, s, Step(cfg, s, act));
  }

  lemma PotentialNonNegative(cfg: Config, s: State)
    requires WellFormed(cfg, s)
    ensures 0 <= Potential(cfg, s)
  {
    SumNonNegative(Shares(cfg, s.mem, s.agents));
    SumNonNegative(Unreaped(s.mem));
    Multiplies(cfg.Agents(), 0, Sum(Unreaped(s.mem)));
  }

  lemma {:induction false} SumBounded(xs: seq<int>, c: int)
    requires forall i :: 0 <= i < |xs| ==> xs[i] <= c
    ensures Sum(xs) <= c * |xs|
  {
    if xs != [] { SumBounded(xs[1..], c); }
  }

  lemma ShareBound(cfg: Config, m: Memory, t: nat, a: Agent)
    requires cfg.Valid() && t < cfg.Agents() && |m.handles| == cfg.size
    ensures Share(cfg, m, t, a) <= 17 * (cfg.Agents() + 1)
  {
    if 0 <= cfg.RoleOf(t).h {
      var hd := m.handles[cfg.RoleOf(t).h];
      if Stale(hd, a) { assert Rank(hd, t, a) == 14; }
      Multiplies(cfg.Agents() + 1, Rank(hd, t, a), 17);
    }
  }

  /** Whatever the state, the potential is bounded by the number of agents. */
  lemma PotentialBound(cfg: Config, s: State)
    requires WellFormed(cfg, s)
    ensures Potential(cfg, s) <= 18 * cfg.Agents() * (cfg.Agents() + 1)
  {
    var n := cfg.Agents();
    forall t | 0 <= t < |s.agents| ensures Shares(cfg, s.mem, s.agents)[t] <= 17 * (n + 1) {
      ShareBound(cfg, s.mem, t, s.agents[t]);
    }
    SumBounded(Shares(cfg, s.mem, s.agents), 17 * (n + 1));
    SumBounded(Unreaped(s.mem), 1);
    Eighteen(n, Sum(Shares(cfg, s.mem, s.agents)), Sum(Unreaped(s.mem)));
  }

  lemma Eighteen(n: nat, x: int, y: int)
    requires x <= 17 * (n + 1) * n && y <= n
    ensures x + n * y <= 18 * n * (n + 1)
  {
    Multiplies(n, y, n + 1);
    assert 17 * (n + 1) * n + n * (n + 1) == 18 * n * (n + 1);
  }

  /** However the reaper and the other agents interfere, and however often a weak compare-exchange fails:
      in every run n agents together take at most 18 n (n + 1) real steps and, for every spurious wake-up
      of a joiner, those of one round of its wait loop. */
  lemma {:induction false} BoundedWork(cfg: Config, acts: seq<Action>)
    requires cfg.Valid()
    ensures AgentSteps(cfg, acts) + Potential(cfg, Exec(cfg, acts))
         <= Potential(cfg, Init(cfg)) + Disturbance(cfg, acts)
    ensures AgentSteps(cfg, acts) <= 18 * cfg.Agents() * (cfg.Agents() + 1) + Disturbance(cfg, acts)
  {
    PotentialNonNegative(cfg, Exec(cfg, acts));
    PotentialBound(cfg, Init(cfg));
    if acts != [] {
      var before, act := acts[..|acts| - 1], acts[|acts| - 1];
      BoundedWork(cfg, before);
      Reachable(cfg, before);
      StepTires(cfg, Exec(cfg, before), History(cfg, before), act);
    }
  }

  // ----- a clean end can always be reached

  /** How many steps the reaper, run alone, still has at most before it sleeps. */
  function ReaperRank(m: Memory, r: Reaper, g: Trail): nat {
    var n := if g.done < |g.ids| then |g.ids| - g.done else 0;
    if n == 0 then
      match r.pc
      case Off => if m.cloned then 4 else 0
      case CountAsleep => if m.dozing then 0 else 4
      case CountWait => 2
      case CountLoad => 3
      case QueueLock => 7
      case HeadRead => 6
      case QueueUnlock | CountSub => 5
      case _ => 0
    else
      40 * n +
      match r.pc
      case Off | CountAsleep | CountSub => 31
      case CountWait => 30
      case CountLoad => 29
      case QueueLock => 28
      case HeadRead => 27
      case HeadClear => 26
      case TailClear => 25
      case QueueUnlock => 24
      case NodeRead => 23
      case ReapMark => 22
      case HandleFree => 21
      case NodeFree => 20
      case Fault => 0
  }

  lemma DequeueTires(cfg: Config, m: Memory, r: Reaper, g: Trail)
    requires MemoryOk(cfg, m) && ReaperInside(cfg, r) && ReaperOk(m, r, g) && EndsOk(m, g) && Dequeuing(r)
    requires r.pc.QueueLock? ==> !m.locked
    ensures var o := DequeueStep(cfg, m, r, false);
      ReaperRank(o.mem, o.r, ReaperTrail(g, r)) < ReaperRank(m, r, g)
  {
  }

  lemma WalkTires(cfg: Config, m: Memory, r: Reaper, g: Trail)
    requires MemoryOk(cfg, m) && ReaperInside(cfg, r) && ReaperOk(m, r, g) && Walking(r)
    requires g.ids[g.done] < |m.nodes| && NodeOk(m, g, g.done)
    ensures var o := WalkStep(cfg, m, r);
      ReaperRank(o.mem, o.r, ReaperTrail(g, r)) < ReaperRank(m, r, g)
  {
  }

  /** With nobody else under way the count is true, so the reaper goes to sleep on an empty queue only. */
  lemma WaitTires(cfg: Config, m: Memory, r: Reaper, g: Trail)
    requires MemoryOk(cfg, m) && ReaperInside(cfg, r) && ReaperOk(m, r, g) && !Walking(r) && !Dequeuing(r)
    requires m.count == |g.ids| - g.done + r.processed && (m.dozing ==> m.count == 0)
    ensures var o := ReaperStep(cfg, m, r, false);
      (o.r == r && o.mem == m) || ReaperRank(o.mem, o.r, ReaperTrail(g, r)) < ReaperRank(m, r, g)
  {
  }

  lemma AllDoneCounts(cfg: Config, s: State, g: Trail)
    requires Inv(cfg, s, g) && forall t :: 0 <= t < |s.agents| ==> s.agents[t].pc.Done?
    ensures s.mem.count == |g.ids| - g.done + s.reaper.processed && (s.mem.dozing ==> s.mem.count == 0)
  {
    forall t | 0 <= t < |s.agents| ensures Weight(Lagging, cfg.RoleOf(t), s.agents[t]) == 0 { }
    Settled(cfg, s, g, Lagging);
  }

  /** When no agent can move, a step of the reaper brings it nearer to its sleep. */
  lemma ReaperTires(cfg: Config, s: State, g: Trail)
    requires Inv(cfg, s, g) && AgentsStuck(cfg, s) && Step(cfg, s, Reap(false)) != s
    ensures var o := ReaperStep(cfg, s.mem, s.reaper, false);
      ReaperRank(o.mem, o.r, ReaperTrail(g, s.reaper)) < ReaperRank(s.mem, s.reaper, g)
  {
    var m, r := s.mem, s.reaper;
    StuckIsUnlocked(cfg, s, g);
    ReaperRuns(cfg, m, r, false);
    if Walking(r) {
      assert NodeOk(m, g, g.done);
      WalkTires(cfg, m, r, g);
    } else if Dequeuing(r) {
      DequeueTires(cfg, m, r, g);
    } else {
      BookNonNegative(cfg, s, g, Holding);
      forall t | 0 <= t < |s.agents| ensures s.agents[t].pc.Done? { StuckIsOver(cfg, s, g, t); }
      AllDoneCounts(cfg, s, g);
      WaitTires(cfg, m, r, g);
    }
  }

  /** As long as somebody can move, one action brings the end nearer. */
  lemma Nearer(cfg: Config, s: State, g: Trail) returns (act: Action)
    requires Inv(cfg, s, g) && !Stuck(cfg, s)
    ensures var s' := Step(cfg, s, act);
      || Potential(cfg, s') < Potential(cfg, s)
      || (Potential(cfg, s') == Potential(cfg, s)
          && ReaperRank(s'.mem, s'.reaper, NextTrail(cfg, s, g, act)) < ReaperRank(s.mem, s.reaper, g))
  {
    if t :| 0 <= t < |s.agents| && Step(cfg, s, Run(t, 0, false)) != s {
      act := Run(t, 0, false);
      AgentTires(cfg, s, g, t, 0, false);
    } else {
      act := Reap(false);
      ReaperTires(cfg, s, g);
      ReaperRests(cfg, s, g, false);
    }
  }

  /** The state after the actions of `more` from s on. */
  function After(cfg: Config, s: State, more: seq<Action>): (r: State)
    requires WellFormed(cfg, s)
    ensures WellFormed(cfg, r)
    decreases |more|
  {
    if more == [] then s else After(cfg, Step(cfg, s, more[0]), more[1..])
  }

  lemma {:induction false} AfterBoth(cfg: Config, s: State, a: seq<Action>, b: seq<Action>)
    requires WellFormed(cfg, s)
    ensures After(cfg, s, a + b) == After(cfg, After(cfg, s, a), b)
    decreases |a|
  {
    if a == [] {
      assert a + b == b;
    } else {
      assert (a + b)[1..] == a[1..] + b;
      AfterBoth(cfg, Step(cfg, s, a[0]), a[1..], b);
    }
  }

  lemma {:induction false} ExecAfter(cfg: Config, acts: seq<Action>, more: seq<Action>)
    requires cfg.Valid()
    ensures Exec(cfg, acts + more) == After(cfg, Exec(cfg, acts), more)
    decreases |more|
  {
    if more == [] {
      assert acts + more == acts;
    } else {
      assert acts + more == acts + [more[0]] + more[1..];
      assert (acts + [more[0]])[..|acts|] == acts;
      ExecAfter(cfg, acts + [more[0]], more[1..]);
    }
  }

  lemma {:induction false} Finish(cfg: Config, s: State, g: Trail) returns (more: seq<Action>)
    requires Inv(cfg, s, g)
    ensures Stuck(cfg, After(cfg, s, more))
    decreases Potential(cfg, s), ReaperRank(s.mem, s.reaper, g)
  {
    if Stuck(cfg, s) {
      more := [];
    } else {
      var act := Nearer(cfg, s, g);
      StepKeepsInv(cfg, s, g, act);
      PotentialNonNegative(cfg, Step(cfg, s, act));
      var rest := Finish(cfg, Step(cfg, s, act), NextTrail(cfg, s, g, act));
      more := [act] + rest;
    }
  }

  /** From every reachable state some schedule leads to a state where nobody can move: the clean end. */
  lemma CleanEnd(cfg: Config, acts: seq<Action>) returns (more: seq<Action>)
    requires cfg.Valid()
    ensures Stuck(cfg, Exec(cfg, acts + more))
  {
    Reachable(cfg, acts);
    more := Finish(cfg, Exec(cfg, acts), History(cfg, acts));
    ExecAfter(cfg, acts, more);
  }
}
