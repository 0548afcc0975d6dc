/** A run of two detached threads in which `reaper_main` subtracts more than `count` holds, although
    nothing is wrong: the second thread has linked its handle and not yet counted it. */
module LifecycleUnderflow {
  import opened Lifecycle
  import opened LifecycleInvariant
  import opened LifecycleSteps
  import opened LifecycleProgress

  /** Two threads, agents 0 and 1, and two detaches, agents 2 and 3. */
  function TwoDetached(): (cfg: Config)
    ensures cfg.Valid() && cfg.Agents() == 4
    ensures cfg.RoleOf(0) == Exiter(0) && cfg.RoleOf(1) == Exiter(1)
    ensures cfg.RoleOf(2) == Detacher(0) && cfg.RoleOf(3) == Detacher(1)
  {
    Config(2, [Detacher(0), Detacher(1)])
  }

  /** Between s and s' only agent t has moved, on its own handle and on the queue, and the lock is free. */
  ghost predicate OnlyAgent(cfg: Config, s: State, s': State, t: nat)
    requires cfg.Valid() && t < cfg.Agents()
  {
    && s'.reaper == s.reaper && |s'.agents| == |s.agents| && |s'.mem.handles| == |s.mem.handles|
    && (forall u :: 0 <= u < |s.agents| && u != t ==> s'.agents[u] == s.agents[u])
    && (forall h :: 0 <= h < |s.mem.handles| && h != cfg.RoleOf(t).h ==> s'.mem.handles[h] == s.mem.handles[h])
    && s'.mem.count == s.mem.count && (s'.mem.dozing ==> s.mem.dozing)
  }

  // ----- a detach of a thread that is still running

  ghost predicate DetachesAlone(cfg: Config, s: State, t: nat)
    requires WellFormed(cfg, s)
  {
    && t < |s.agents| && cfg.RoleOf(t).Detacher? && 0 <= cfg.RoleOf(t).h
    && var hd, a := s.mem.handles[cfg.RoleOf(t).h], s.agents[t];
    && !hd.finished && !hd.word.joined && !hd.word.queued
    && (a.pc.LoadWord? || a.pc.TryDetach? || a.pc.LoadFinished? || (a.pc.Done? && hd.word.detached))
  }

  lemma DetachStepAlone(cfg: Config, s: State, g: Trail, t: nat)
    requires Inv(cfg, s, g) && DetachesAlone(cfg, s, t) && !s.agents[t].pc.Done?
    ensures var s' := Step(cfg, s, Run(t, 0, false));
      && DetachesAlone(cfg, s', t) && OnlyAgent(cfg, s, s', t) && s'.mem.locked == s.mem.locked
      && Share(cfg, s'.mem, t, s'.agents[t]) < Share(cfg, s.mem, t, s.agents[t])
  {
    var h, a := cfg.RoleOf(t).h, s.agents[t];
    var s' := Step(cfg, s, Run(t, 0, false));
    assert AgentOk(cfg, s.mem, g, t, s.agents[t]);
    OwnTires(s.mem.handles[h], t, cfg.RoleOf(t), a, 0, false);
    ShareMoves(cfg, s.mem, s'.mem, t, a, s'.agents[t]);
  }

  lemma {:induction false} DetachAlone(cfg: Config, s: State, g: Trail, t: nat) returns (more: seq<Action>, g': Trail)
    requires Inv(cfg, s, g) && DetachesAlone(cfg, s, t)
    ensures var s' := After(cfg, s, more);
      && Inv(cfg, s', g') && DetachesAlone(cfg, s', t) && s'.agents[t].pc.Done?
      && OnlyAgent(cfg, s, s', t) && s'.mem.locked == s.mem.locked
    decreases Share(cfg, s.mem, t, s.agents[t])
  {
    if s.agents[t].pc.Done? {
      more, g' := [], g;
    } else {
      var act := Run(t, 0, false);
      DetachStepAlone(cfg, s, g, t);
      StepKeepsInv(cfg, s, g, act);
      var rest;
      rest, g' := DetachAlone(cfg, Step(cfg, s, act), NextTrail(cfg, s, g, act), t);
      more := [act] + rest;
    }
  }

  // ----- the exit of a detached thread, up to its link

  ghost predicate ExitsAlone(cfg: Config, s: State, t: nat)
    requires WellFormed(cfg, s)
  {
    && t < cfg.size && !(s.mem.locked && !Critical(s.agents[t].pc))
    && var hd, a := s.mem.handles[t], s.agents[t];
    && hd.word.detached && !a.pc.WakeReaper? && !a.pc.Done?
    && (!HandingOver(a.pc) ==> !hd.word.queued)
  }

  lemma HandOverAlone(cfg: Config, s: State, g: Trail, t: nat)
    requires Inv(cfg, s, g) && ExitsAlone(cfg, s, t) && HandingOver(s.agents[t].pc) && !s.agents[t].pc.AddCount?
    ensures var s' := Step(cfg, s, Run(t, 0, false));
      && ExitsAlone(cfg, s', t) && OnlyAgent(cfg, s, s', t)
      && Share(cfg, s'.mem, t, s'.agents[t]) < Share(cfg, s.mem, t, s.agents[t])
  {
    var a, s' := s.agents[t], Step(cfg, s, Run(t, 0, false));
    assert AgentOk(cfg, s.mem, g, t, s.agents[t]);
    HandOverTires(cfg, s.mem, t, t, a, false, s.mem.handles[t]);
    HandOverKeepsHandles(cfg, s.mem, t, t, a, false);
    ShareMoves(cfg, s.mem, s'.mem, t, a, s'.agents[t]);
  }

  lemma ExitStepAlone(cfg: Config, s: State, g: Trail, t: nat)
    requires Inv(cfg, s, g) && ExitsAlone(cfg, s, t) && !s.agents[t].pc.AddCount?
    ensures var s' := Step(cfg, s, Run(t, 0, false));
      && ExitsAlone(cfg, s', t) && OnlyAgent(cfg, s, s', t)
      && Share(cfg, s'.mem, t, s'.agents[t]) < Share(cfg, s.mem, t, s.agents[t])
  {
    var a, s' := s.agents[t], Step(cfg, s, Run(t, 0, false));
    if HandingOver(a.pc) {
      HandOverAlone(cfg, s, g, t);
    } else {
      assert AgentOk(cfg, s.mem, g, t, s.agents[t]);
      OwnTires(s.mem.handles[t], t, cfg.RoleOf(t), a, 0, false);
      ShareMoves(cfg, s.mem, s'.mem, t, a, s'.agents[t]);
    }
  }

  lemma {:induction false} ExitAlone(cfg: Config, s: State, g: Trail, t: nat) returns (more: seq<Action>, g': Trail)
    requires Inv(cfg, s, g) && ExitsAlone(cfg, s, t)
    ensures var s' := After(cfg, s, more);
      && Inv(cfg, s', g') && s'.agents[t].pc.AddCount? && !s'.mem.locked && OnlyAgent(cfg, s, s', t)
    decreases Share(cfg, s.mem, t, s.agents[t])
  {
    if s.agents[t].pc.AddCount? {
      more, g' := [], g;
    } else {
      var act := Run(t, 0, false);
      ExitStepAlone(cfg, s, g, t);
      StepKeepsInv(cfg, s, g, act);
      var rest;
      rest, g' := ExitAlone(cfg, Step(cfg, s, act), NextTrail(cfg, s, g, act), t);
      more := [act] + rest;
    }
  }

  // ----- the reaper, up to the subtraction

  ghost predicate ReapsAlone(s: State, g: Trail) {
    && s.mem.cloned && s.mem.count != 0 && (s.mem.locked ==> ReaperHolds(s.reaper)) && !s.reaper.pc.CountAsleep?
    && (if Walking(s.reaper) || s.reaper.pc.TailClear? || s.reaper.pc.CountSub?
        then g.taken == |g.ids| else g.done < |g.ids|)
  }

  lemma ReapStepAlone(cfg: Config, s: State, g: Trail)
    requires Inv(cfg, s, g) && ReapsAlone(s, g) && !s.reaper.pc.CountSub?
    ensures var s', g' := Step(cfg, s, Reap(false)), ReaperTrail(g, s.reaper);
      && ReapsAlone(s', g') && s'.agents == s.agents && s'.mem.count == s.mem.count
      && ReaperRank(s'.mem, s'.reaper, g') < ReaperRank(s.mem, s.reaper, g)
  {
    var m, r := s.mem, s.reaper;
    ReaperRuns(cfg, m, r, false);
    if Walking(r) {
      assert NodeOk(m, g, g.done);
      WalkTires(cfg, m, r, g);
    } else if Dequeuing(r) {
      DequeueTires(cfg, m, r, g);
    }
  }

  lemma {:induction false} ReapAlone(cfg: Config, s: State, g: Trail) returns (more: seq<Action>, g': Trail)
    requires Inv(cfg, s, g) && ReapsAlone(s, g)
    ensures var s' := After(cfg, s, more);
      && Inv(cfg, s', g') && ReapsAlone(s', g') && s'.reaper.pc.CountSub? && s'.agents == s.agents
    decreases ReaperRank(s.mem, s.reaper, g)
  {
    if s.reaper.pc.CountSub? {
      more, g' := [], g;
    } else {
      var act := Reap(false);
      ReapStepAlone(cfg, s, g);
      StepKeepsInv(cfg, s, g, act);
      var rest;
      rest, g' := ReapAlone(cfg, Step(cfg, s, act), NextTrail(cfg, s, g, act));
      more := [act] + rest;
    }
  }

  // ----- the run

  /** Both threads are detached and over, but for the second one's count. */
  ghost predicate OneUncounted(cfg: Config, s: State, g: Trail)
    requires cfg.Valid()
  {
    && Inv(cfg, s, g) && cfg.Agents() == 4 && s.reaper.pc.Off? && !s.mem.locked && s.mem.count == 1
    && s.agents[0].pc.WakeReaper? && s.agents[1].pc.AddCount? && s.agents[2].pc.Done? && s.agents[3].pc.Done?
  }

  lemma Detaches() returns (acts: seq<Action>, g: Trail)
    ensures var cfg := TwoDetached();
      var s := After(cfg, Init(cfg), acts);
      Exiting(cfg, s, g) && ExitsAlone(cfg, s, 0)
  {
    var cfg := TwoDetached();
    InitInv(cfg);
    var more, rest, g1;
    more, g1 := DetachAlone(cfg, Init(cfg), History(cfg, []), 2);
    rest, g := DetachAlone(cfg, After(cfg, Init(cfg), more), g1, 3);
    AfterBoth(cfg, Init(cfg), more, rest);
    acts := more + rest;
  }

  /** Both detaches are over, the threads are as in s or further, and nothing has been counted. */
  ghost predicate Exiting(cfg: Config, s: State, g: Trail)
    requires cfg.Valid()
  {
    && Inv(cfg, s, g) && cfg.Agents() == 4 && cfg.size == 2 && s.reaper.pc.Off? && !s.mem.locked && s.mem.count == 0
    && s.agents[1].pc.Running? && s.agents[2].pc.Done? && s.agents[3].pc.Done?
    && s.mem.handles[1].word.detached && !s.mem.handles[1].word.queued
  }

  lemma FirstExits(s: State, g: Trail) returns (acts: seq<Action>, g': Trail)
    requires var cfg := TwoDetached(); Exiting(cfg, s, g) && ExitsAlone(cfg, s, 0)
    ensures var s' := After(TwoDetached(), s, acts); Exiting(TwoDetached(), s', g') && s'.agents[0].pc.AddCount?
  {
    acts, g' := ExitAlone(TwoDetached(), s, g, 0);
  }

  lemma FirstCounts(s: State, g: Trail) returns (g': Trail)
    requires Exiting(TwoDetached(), s, g) && s.agents[0].pc.AddCount?
    ensures var s' := Step(TwoDetached(), s, Run(0, 0, false));
      && Inv(TwoDetached(), s', g') && ExitsAlone(TwoDetached(), s', 1) && s'.reaper.pc.Off? && s'.mem.count == 1
      && s'.agents[0].pc.WakeReaper? && s'.agents[2].pc.Done? && s'.agents[3].pc.Done?
  {
    g' := NextTrail(TwoDetached(), s, g, Run(0, 0, false));
    StepKeepsInv(TwoDetached(), s, g, Run(0, 0, false));
  }

  lemma Exits(s: State, g: Trail) returns (acts: seq<Action>, g': Trail)
    requires Exiting(TwoDetached(), s, g) && ExitsAlone(TwoDetached(), s, 0)
    ensures OneUncounted(TwoDetached(), After(TwoDetached(), s, acts), g')
  {
    var cfg, count := TwoDetached(), Run(0, 0, false);
    var first, second, g1;
    first, g1 := FirstExits(s, g);
    var s1 := After(cfg, s, first);
    var g2 := FirstCounts(s1, g1);
    second, g' := ExitAlone(cfg, Step(cfg, s1, count), g2, 1);
    assert After(cfg, s1, [count]) == Step(cfg, s1, count);
    AfterBoth(cfg, s1, [count], second);
    AfterBoth(cfg, s, first, [count] + second);
    acts := first + ([count] + second);
  }

  lemma StartsReaping(cfg: Config, s: State, g: Trail)
    requires cfg.Valid() && OneUncounted(cfg, s, g)
    ensures ReapsAlone(s, g)
  {
    assert AgentOk(cfg, s.mem, g, 1, s.agents[1]);
    Counted(cfg, s, g, Lagging, 1);
    if !s.mem.cloned { var t := Charged(cfg, s, g, Starting); }
  }

  lemma Underflows(cfg: Config, s: State, g: Trail)
    requires Inv(cfg, s, g) && ReapsAlone(s, g) && s.reaper.pc.CountSub?
    requires 1 < |s.agents| && s.agents[1].pc.AddCount?
    ensures s.mem.count < s.reaper.processed
  {
    Counted(cfg, s, g, Lagging, 1);
  }

  /** A run of two detached threads after which the reaper is about to subtract more than there is. */
  lemma UnderflowHappens() returns (acts: seq<Action>)
    ensures var s := Exec(TwoDetached(), acts);
      s.reaper.pc.CountSub? && s.mem.count < s.reaper.processed
  {
    var cfg := TwoDetached();
    var detach, exit, reap, g, g1, g2;
    detach, g := Detaches();
    var s := After(cfg, Init(cfg), detach);
    exit, g1 := Exits(s, g);
    var s1 := After(cfg, s, exit);
    StartsReaping(cfg, s1, g1);
    reap, g2 := ReapAlone(cfg, s1, g1);
    Underflows(cfg, After(cfg, s1, reap), g2);
    AfterBoth(cfg, s, exit, reap);
    AfterBoth(cfg, Init(cfg), detach, exit + reap);
    acts := detach + (exit + reap);
    ExecAfter(cfg, [], acts);
    assert [] + acts == acts;
  }
}
