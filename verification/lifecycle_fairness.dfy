/** Every schedule that keeps giving everybody a turn ends, after a number of rounds known beforehand, in
    the clean end: all returned, and exactly the joined or detached handles freed. */
module LifecycleFairness {
  import opened Lifecycle
  import opened LifecycleInvariant
  import opened LifecycleProgress
  import opened LifecycleSteps
  import opened LifecycleTheorems
  import opened Rounds

  /** A step without a spurious failure, and no spurious wake-up. */
  predicate Plain(act: Action) {
    (act.Run? || act.Reap?) && !act.fails
  }

  predicate AllPlain(acts: seq<Action>) {
    forall i :: 0 <= i < |acts| ==> Plain(acts[i])
  }

  predicate Turn(acts: seq<Action>, t: nat) {
    exists i :: 0 <= i < |acts| && acts[i].Run? && acts[i].t == t
  }

  predicate ReaperTurn(acts: seq<Action>) {
    exists i :: 0 <= i < |acts| && acts[i].Reap?
  }

  /** In a round every agent and the reaper have a turn, in any order and as often as you like. */
  predicate Round(cfg: Config, acts: seq<Action>) {
    AllPlain(acts) && ReaperTurn(acts) && forall t :: 0 <= t < cfg.Agents() ==> Turn(acts, t)
  }

  function AfterTrail(cfg: Config, s: State, g: Trail, acts: seq<Action>): Trail
    requires WellFormed(cfg, s)
    decreases |acts|
  {
    if acts == [] then g else AfterTrail(cfg, Step(cfg, s, acts[0]), NextTrail(cfg, s, g, acts[0]), acts[1..])
  }

  /** No agent changes anything in this stretch. */
  ghost predicate Quiet(cfg: Config, s: State, acts: seq<Action>)
    requires WellFormed(cfg, s)
    decreases |acts|
  {
    acts == [] || ((acts[0].Run? ==> Step(cfg, s, acts[0]) == s) && Quiet(cfg, Step(cfg, s, acts[0]), acts[1..]))
  }

  /** Nobody does. */
  ghost predicate Still(cfg: Config, s: State, acts: seq<Action>)
    requires WellFormed(cfg, s)
  {
    forall i :: 0 <= i < |acts| ==> Step(cfg, s, acts[i]) == s
  }

  // ----- a stretch of plain steps

  lemma PlainTires(cfg: Config, s: State, g: Trail, act: Action)
    requires Inv(cfg, s, g) && Plain(act)
    ensures Inv(cfg, Step(cfg, s, act), NextTrail(cfg, s, g, act))
    ensures Potential(cfg, Step(cfg, s, act)) <= Potential(cfg, s)
    ensures act.Run? && Step(cfg, s, act) != s ==> Potential(cfg, Step(cfg, s, act)) < Potential(cfg, s)
  {
    StepKeepsInv(cfg, s, g, act);
    StepTires(cfg, s, g, act);
  }

  lemma {:induction false} PlainRun(cfg: Config, s: State, g: Trail, acts: seq<Action>)
    requires Inv(cfg, s, g) && AllPlain(acts)
    ensures Inv(cfg, After(cfg, s, acts), AfterTrail(cfg, s, g, acts))
    ensures Potential(cfg, After(cfg, s, acts)) <= Potential(cfg, s)
    ensures Potential(cfg, After(cfg, s, acts)) == Potential(cfg, s) ==> Quiet(cfg, s, acts)
    decreases |acts|
  {
    if acts != [] {
      PlainTires(cfg, s, g, acts[0]);
      PlainRun(cfg, Step(cfg, s, acts[0]), NextTrail(cfg, s, g, acts[0]), acts[1..]);
    }
  }

  // ----- a quiet round

  /** In a quiet stretch agent t has its turn in some state in which it cannot move. */
  lemma {:induction false} QuietTurn(cfg: Config, s: State, g: Trail, acts: seq<Action>, t: nat)
    returns (s': State, g': Trail)
    requires Inv(cfg, s, g) && AllPlain(acts) && Quiet(cfg, s, acts) && t < |s.agents| && Turn(acts, t)
    ensures Inv(cfg, s', g') && s'.agents == s.agents && Blocked(cfg, s', t)
    decreases |acts|
  {
    if acts[0].Run? && acts[0].t == t {
      s', g' := s, g;
      BlockedAgent(cfg, s, g, t, acts[0].choice);
    } else {
      var i :| 0 <= i < |acts| && acts[i].Run? && acts[i].t == t;
      assert acts[1..][i - 1] == acts[i];
      StepKeepsInv(cfg, s, g, acts[0]);
      s', g' := QuietTurn(cfg, Step(cfg, s, acts[0]), NextTrail(cfg, s, g, acts[0]), acts[1..], t);
    }
  }

  /** Every agent has returned or stands at the queue lock. */
  ghost predicate Calm(s: State) {
    forall t :: 0 <= t < |s.agents| ==> s.agents[t].pc.Done? || s.agents[t].pc.Lock?
  }

  /** Nobody sleeps on a handle whose thread has returned or is at the queue lock. */
  lemma NoSleeper(cfg: Config, s: State, g: Trail, h: nat)
    requires Inv(cfg, s, g) && h < cfg.size && (s.agents[h].pc.Done? || s.agents[h].pc.Lock?)
    ensures s.mem.handles[h].waiters == []
  {
    assert WaitersOk(cfg, s.mem, s.agents, h) && AgentOk(cfg, s.mem, g, h, s.agents[h]);
  }

  lemma QuietIsCalm(cfg: Config, s: State, g: Trail, acts: seq<Action>)
    requires Inv(cfg, s, g) && AllPlain(acts) && Quiet(cfg, s, acts)
    requires forall t :: 0 <= t < cfg.Agents() ==> Turn(acts, t)
    ensures Calm(s)
  {
    forall t | 0 <= t < |s.agents|
      ensures s.agents[t].pc.Done? || s.agents[t].pc.Lock?
    {
      assert Turn(acts, t);
      var s', g' := QuietTurn(cfg, s, g, acts, t);
      var h := cfg.RoleOf(t).h;
      if cfg.RoleOf(t).Joiner? && 0 <= h {
        assert Turn(acts, h);
        var s1, g1 := QuietTurn(cfg, s, g, acts, h);
        NoSleeper(cfg, s', g', h);
      }
    }
  }

  /** In a calm state the lock is free or the reaper's, and the count is true. */
  lemma CalmIsTrue(cfg: Config, s: State, g: Trail)
    requires Inv(cfg, s, g) && Calm(s)
    ensures s.mem.locked == ReaperHolds(s.reaper)
    ensures s.mem.count == |g.ids| - g.done + s.reaper.processed && (s.mem.dozing ==> s.mem.count == 0)
  {
    forall t | 0 <= t < |s.agents|
      ensures Weight(Holding, cfg.RoleOf(t), s.agents[t]) == 0 && Weight(Lagging, cfg.RoleOf(t), s.agents[t]) == 0
    {
    }
    Settled(cfg, s, g, Holding);
    Settled(cfg, s, g, Lagging);
  }

  lemma CalmReaper(cfg: Config, s: State, g: Trail)
    requires Inv(cfg, s, g) && Calm(s) && Step(cfg, s, Reap(false)) != s
    ensures var o := ReaperStep(cfg, s.mem, s.reaper, false);
      ReaperRank(o.mem, o.r, ReaperTrail(g, s.reaper)) < ReaperRank(s.mem, s.reaper, g)
  {
    var m, r := s.mem, s.reaper;
    CalmIsTrue(cfg, s, g);
    ReaperRuns(cfg, m, r, false);
    if Walking(r) {
      assert NodeOk(m, g, g.done);
      WalkTires(cfg, m, r, g);
    } else if Dequeuing(r) {
      DequeueTires(cfg, m, r, g);
    } else {
      WaitTires(cfg, m, r, g);
    }
  }

  /** A step that changes nothing adds nothing to the trail. */
  lemma StillTrail(cfg: Config, s: State, g: Trail, act: Action)
    requires Inv(cfg, s, g) && Plain(act) && Step(cfg, s, act) == s
    ensures NextTrail(cfg, s, g, act) == g
  {
    if act.Run? && act.t < |s.agents| {
      assert AgentOk(cfg, s.mem, g, act.t, s.agents[act.t]);
      BlockedAgent(cfg, s, g, act.t, act.choice);
    } else if act.Reap? {
      assert ReaperStep(cfg, s.mem, s.reaper, false).r == s.reaper;
      ReaperRuns(cfg, s.mem, s.reaper, false);
    }
  }

  /** What the reaper, run beside agents that do not move, has left; it goes down or nothing happens at all. */
  lemma {:induction false} QuietReaper(cfg: Config, s: State, g: Trail, acts: seq<Action>)
    requires Inv(cfg, s, g) && AllPlain(acts) && Quiet(cfg, s, acts) && Calm(s)
    ensures var s', g' := After(cfg, s, acts), AfterTrail(cfg, s, g, acts);
      && ReaperRank(s'.mem, s'.reaper, g') <= ReaperRank(s.mem, s.reaper, g)
      && (ReaperRank(s'.mem, s'.reaper, g') == ReaperRank(s.mem, s.reaper, g) ==> Still(cfg, s, acts))
    decreases |acts|
  {
    if acts != [] {
      var s1, g1 := Step(cfg, s, acts[0]), NextTrail(cfg, s, g, acts[0]);
      StepKeepsInv(cfg, s, g, acts[0]);
      if s1 == s { StillTrail(cfg, s, g, acts[0]); } else { CalmReaper(cfg, s, g); }
      QuietReaper(cfg, s1, g1, acts[1..]);
      if s1 == s && Still(cfg, s, acts[1..]) {
        forall i | 0 <= i < |acts| ensures Step(cfg, s, acts[i]) == s {
          if i > 0 { assert acts[i] == acts[1..][i - 1]; }
        }
      }
    }
  }

  /** Whoever is blocked does not move, whatever it would draw. */
  lemma BlockedStays(cfg: Config, s: State, g: Trail, t: nat, choice: nat)
    requires Inv(cfg, s, g) && t < |s.agents| && Blocked(cfg, s, t)
    ensures Step(cfg, s, Run(t, choice, false)) == s
  {
    var role := cfg.RoleOf(t);
    assert AgentOk(cfg, s.mem, g, t, s.agents[t]);
    assert s.agents[t := s.agents[t]] == s.agents;
    if role.h != NULL { assert s.mem.handles[role.h := s.mem.handles[role.h]] == s.mem.handles; }
  }

  lemma StillIsStuck(cfg: Config, s: State, g: Trail, acts: seq<Action>)
    requires Inv(cfg, s, g) && Round(cfg, acts) && Still(cfg, s, acts)
    ensures Stuck(cfg, s)
  {
    forall t | 0 <= t < |s.agents|
      ensures Step(cfg, s, Run(t, 0, false)) == s
    {
      assert Turn(acts, t);
      var i :| 0 <= i < |acts| && acts[i].Run? && acts[i].t == t;
      BlockedAgent(cfg, s, g, t, acts[i].choice);
      BlockedStays(cfg, s, g, t, 0);
    }
    var i :| 0 <= i < |acts| && acts[i].Reap?;
    assert Step(cfg, s, acts[i]) == s;
  }

  lemma {:induction false} StuckStays(cfg: Config, s: State, g: Trail, acts: seq<Action>)
    requires Inv(cfg, s, g) && Stuck(cfg, s) && AllPlain(acts)
    ensures After(cfg, s, acts) == s
    decreases |acts|
  {
    if acts != [] {
      if acts[0].Run? && acts[0].t < |s.agents| {
        StuckAgent(cfg, s, g, acts[0].t);
        BlockedStays(cfg, s, g, acts[0].t, acts[0].choice);
      }
      StuckStays(cfg, s, g, acts[1..]);
    }
  }

  // ----- how many rounds

  /** A round uses up potential of the agents, or else steps of the reaper, unless nobody can move. */
  lemma RoundTires(cfg: Config, s: State, g: Trail, round: seq<Action>)
    requires Inv(cfg, s, g) && Round(cfg, round) && !Stuck(cfg, s)
    ensures var s', g' := After(cfg, s, round), AfterTrail(cfg, s, g, round);
      && Inv(cfg, s', g')
      && (Potential(cfg, s') < Potential(cfg, s)
          || (Potential(cfg, s') == Potential(cfg, s)
              && ReaperRank(s'.mem, s'.reaper, g') < ReaperRank(s.mem, s.reaper, g)))
  {
    PlainRun(cfg, s, g, round);
    if Potential(cfg, After(cfg, s, round)) == Potential(cfg, s) {
      QuietIsCalm(cfg, s, g, round);
      QuietReaper(cfg, s, g, round);
      if Still(cfg, s, round) { StillIsStuck(cfg, s, g, round); }
    }
  }

  /** Different numbers below n are at most n. */
  lemma {:induction false} Pigeonhole(xs: seq<nat>, n: nat)
    requires forall i :: 0 <= i < |xs| ==> xs[i] < n
    requires forall i, j :: 0 <= i < j < |xs| ==> xs[i] != xs[j]
    ensures |xs| <= n
  {
    if xs != [] {
      assert xs[0] < n;
      if k :| 0 <= k < |xs| && xs[k] == n - 1 {
        var ys := xs[..k] + xs[k + 1..];
        forall i | 0 <= i < |ys| ensures ys[i] == xs[if i < k then i else i + 1] { }
        Pigeonhole(ys, n - 1);
      } else {
        Pigeonhole(xs, n - 1);
      }
    }
  }

  /** More steps than the reaper, run alone, can have left. */
  function ReaperBound(cfg: Config): nat {
    40 * cfg.size + 40
  }

  lemma RankBound(cfg: Config, s: State, g: Trail)
    requires Inv(cfg, s, g)
    ensures ReaperRank(s.mem, s.reaper, g) < ReaperBound(cfg)
  {
    NodesDiffer(cfg, s, g);
    Pigeonhole(g.handles, cfg.size);
  }

  /** What agents and reaper have left together. */
  function Left(cfg: Config, s: State, g: Trail): int
    requires WellFormed(cfg, s)
  {
    ReaperBound(cfg) * Potential(cfg, s) + ReaperRank(s.mem, s.reaper, g)
  }

  lemma LeftDrops(cfg: Config, s: State, g: Trail, s': State, g': Trail)
    requires Inv(cfg, s, g) && Inv(cfg, s', g')
    requires Potential(cfg, s') < Potential(cfg, s)
          || (Potential(cfg, s') == Potential(cfg, s)
              && ReaperRank(s'.mem, s'.reaper, g') < ReaperRank(s.mem, s.reaper, g))
    ensures Left(cfg, s', g') < Left(cfg, s, g)
  {
    RankBound(cfg, s', g');
    if Potential(cfg, s') < Potential(cfg, s) {
      Multiplies(ReaperBound(cfg), Potential(cfg, s') + 1, Potential(cfg, s));
      OneMore(ReaperBound(cfg), Potential(cfg, s'));
    }
  }

  lemma LeftNonNegative(cfg: Config, s: State, g: Trail)
    requires WellFormed(cfg, s)
    ensures 0 <= Left(cfg, s, g)
  {
    PotentialNonNegative(cfg, s);
    Multiplies(ReaperBound(cfg), 0, Potential(cfg, s));
  }

  lemma FlatPlain(cfg: Config, rounds: seq<seq<Action>>)
    requires forall i :: 0 <= i < |rounds| ==> Round(cfg, rounds[i])
    ensures AllPlain(Flat(rounds))
  {
    if rounds != [] { FlatPlain(cfg, rounds[1..]); }
  }

  lemma {:induction false} RoundsEnd(cfg: Config, s: State, g: Trail, rounds: seq<seq<Action>>)
    requires Inv(cfg, s, g) && (forall i :: 0 <= i < |rounds| ==> Round(cfg, rounds[i]))
    requires Left(cfg, s, g) < |rounds|
    ensures Stuck(cfg, After(cfg, s, Flat(rounds)))
    decreases |rounds|
  {
    if Stuck(cfg, s) {
      FlatPlain(cfg, rounds);
      StuckStays(cfg, s, g, Flat(rounds));
    } else {
      LeftNonNegative(cfg, s, g);
      var s', g' := After(cfg, s, rounds[0]), AfterTrail(cfg, s, g, rounds[0]);
      RoundTires(cfg, s, g, rounds[0]);
      LeftDrops(cfg, s, g, s', g');
      RoundsEnd(cfg, s', g', rounds[1..]);
      AfterBoth(cfg, s, rounds[0], Flat(rounds[1..]));
    }
  }

  /** Rounds enough for any state of n agents. */
  function Enough(cfg: Config): nat {
    ReaperBound(cfg) * (18 * cfg.Agents() * (cfg.Agents() + 1) + 1)
  }

  /** From every reachable state, every schedule of that many rounds, whatever the order inside each, ends in
      the clean end: every thread and call has returned, the queue is empty, and exactly the handles joined
      or detached have been freed, each once. */
  lemma FairRunsEnd(cfg: Config, acts: seq<Action>, rounds: seq<seq<Action>>)
    requires cfg.Valid() && Enough(cfg) <= |rounds|
    requires forall i :: 0 <= i < |rounds| ==> Round(cfg, rounds[i])
    ensures Stuck(cfg, Exec(cfg, acts + Flat(rounds)))
    ensures var s := Exec(cfg, acts + Flat(rounds));
      && (forall t :: 0 <= t < |s.agents| ==> s.agents[t].pc.Done?)
      && s.mem.head == NULL
      && forall h :: 0 <= h < cfg.size ==>
           s.mem.handles[h].freed == if s.mem.handles[h].word.joined || s.mem.handles[h].word.detached then 1 else 0
  {
    var s, g := Exec(cfg, acts), History(cfg, acts);
    Reachable(cfg, acts);
    EnoughIsMore(cfg, s, g);
    RoundsEnd(cfg, s, g, rounds);
    ExecAfter(cfg, acts, Flat(rounds));
    EndsClean(cfg, acts + Flat(rounds));
  }

  lemma EnoughIsMore(cfg: Config, s: State, g: Trail)
    requires Inv(cfg, s, g)
    ensures Left(cfg, s, g) < Enough(cfg)
  {
    var n := 18 * cfg.Agents() * (cfg.Agents() + 1);
    PotentialBound(cfg, s);
    RankBound(cfg, s, g);
    Multiplies(ReaperBound(cfg), Potential(cfg, s), n);
    OneMore(ReaperBound(cfg), n);
  }
}
