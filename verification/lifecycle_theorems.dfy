/** What exit, join, detach and the reaper guarantee in every run, for any number of threads and calls. */
module LifecycleTheorems {
  import opened Lifecycle
  import opened LifecycleInvariant
  import opened LifecycleSteps

  // ----- the state word, and who frees a handle

  /** The only reachable words are 0, JOINED, JOINED|REAPED, DETACHED, DETACHED|QUEUED and
      DETACHED|QUEUED|REAPED; a handle is freed at most once, and only after its thread has finished. */
  lemma {:induction false} LifecycleWords(cfg: Config, acts: seq<Action>, h: nat)
    requires cfg.Valid() && h < cfg.size
    ensures var hd := Exec(cfg, acts).mem.handles[h];
      && Bits(hd.word) in {0, 4, 4 + 8, 2, 2 + 16, 2 + 16 + 8}
      && hd.freed <= 1 && (hd.freed == 1 ==> hd.finished && hd.word.reaped)
      && (Bits(hd.word) >= 8 ==> hd.finished)
  {
    Reachable(cfg, acts);
    FreedOnce(cfg, Exec(cfg, acts), History(cfg, acts), h);
  }

  lemma FreedOnce(cfg: Config, s: State, g: Trail, h: nat)
    requires Inv(cfg, s, g) && h < cfg.size
    ensures var hd := s.mem.handles[h];
      HandleOk(hd) && hd.freed <= 1 && (hd.freed == 1 ==> hd.finished && hd.word.reaped)
  {
    assert HandleOk(s.mem.handles[h]);
    BookNonNegative(cfg, s, g, Freeing(h));
  }

  /** Nobody has freed handle h yet, its thread has finished, and the action is the right one. */
  ghost predicate FreesRightly(cfg: Config, s: State, act: Action, h: nat)
    requires WellFormed(cfg, s) && h < cfg.size
  {
    var hd := s.mem.handles[h];
    hd.freed == 0 && hd.finished && Step(cfg, s, act).mem.handles[h].freed == 1 && MayFree(cfg, s, act, h)
  }

  /** Every freeing of a handle is the first, and by the joiner or the reaper but never both: the word
      tells which. */
  lemma FreedBy(cfg: Config, acts: seq<Action>, act: Action, h: nat)
    requires cfg.Valid() && h < cfg.size
    requires Step(cfg, Exec(cfg, acts), act).mem.handles[h].freed != Exec(cfg, acts).mem.handles[h].freed
    ensures FreesRightly(cfg, Exec(cfg, acts), act, h)
  {
    Reachable(cfg, acts);
    FreesFirst(cfg, Exec(cfg, acts), History(cfg, acts), act, h);
  }

  lemma FreesFirst(cfg: Config, s: State, g: Trail, act: Action, h: nat)
    requires Inv(cfg, s, g) && h < cfg.size
    requires Step(cfg, s, act).mem.handles[h].freed != s.mem.handles[h].freed
    ensures FreesRightly(cfg, s, act, h)
  {
    FreedOnce(cfg, s, g, h);
    StepKeepsInv(cfg, s, g, act);
    FreedOnce(cfg, Step(cfg, s, act), NextTrail(cfg, s, g, act), h);
    FreeingStep(cfg, s, g, act, h);
    FreeingFinished(cfg, s, g, act, h);
  }

  lemma FreeingFinished(cfg: Config, s: State, g: Trail, act: Action, h: nat)
    requires Inv(cfg, s, g) && h < cfg.size
    requires Step(cfg, s, act).mem.handles[h].freed != s.mem.handles[h].freed
    ensures s.mem.handles[h].finished
  {
    FreeingStep(cfg, s, g, act, h);
    assert HandleOk(s.mem.handles[h]);
    if s.mem.handles[h].word.joined { assert AgentOk(cfg, s.mem, g, act.t, s.agents[act.t]); }
  }

  lemma OwnFrees(hd: Handle, t: nat, role: Role, a: Agent, choice: nat, fails: bool)
    ensures var hd' := OwnStep(hd, t, role, a, choice, fails).hd;
      hd'.freed == hd.freed + One(role.Joiner? && a.pc.FreeHandle?)
  {
  }

  /** The action is that of the one joiner of handle h, or else of the reaper, as the word says. */
  ghost predicate MayFree(cfg: Config, s: State, act: Action, h: nat)
    requires cfg.Valid() && |s.agents| == cfg.Agents() && h < |s.mem.handles|
  {
    var hd := s.mem.handles[h];
    if hd.word.joined
    then act.Run? && act.t < |s.agents| && cfg.RoleOf(act.t).Joiner? && cfg.RoleOf(act.t).h == h
         && s.agents[act.t].pc.FreeHandle?
    else act.Reap? && hd.word.detached && hd.word.queued && s.reaper.pc.HandleFree? && s.reaper.thread == h
  }

  lemma AgentFrees(cfg: Config, s: State, g: Trail, t: nat, choice: nat, fails: bool, h: nat)
    requires Inv(cfg, s, g) && h < cfg.size && t < |s.agents|
    requires Step(cfg, s, Run(t, choice, fails)).mem.handles[h].freed != s.mem.handles[h].freed
    ensures Step(cfg, s, Run(t, choice, fails)).mem.handles[h].freed == s.mem.handles[h].freed + 1
    ensures MayFree(cfg, s, Run(t, choice, fails), h)
  {
    var a, role := s.agents[t], cfg.RoleOf(t);
    if HandingOver(a.pc) {
      HandOverKeepsHandles(cfg, s.mem, t, role.h, a, fails);
    } else {
      OwnFrees(s.mem.handles[role.h], t, role, a, choice, fails);
      Counted(cfg, s, g, Joining(h), t);
    }
  }

  lemma ReaperFrees(cfg: Config, s: State, g: Trail, fails: bool, h: nat)
    requires Inv(cfg, s, g) && h < cfg.size
    requires ReaperStep(cfg, s.mem, s.reaper, fails).mem.handles[h].freed != s.mem.handles[h].freed
    ensures ReaperStep(cfg, s.mem, s.reaper, fails).mem.handles[h].freed == s.mem.handles[h].freed + 1
    ensures MayFree(cfg, s, Reap(fails), h)
  {
    ReaperRuns(cfg, s.mem, s.reaper, fails);
    if Dequeuing(s.reaper) { DequeueSparesHandles(cfg, s.mem, s.reaper, fails); }
    WalkFrees(cfg, s.mem, s.reaper, h);
    LinkedIsQueued(cfg, s, g, g.done);
    assert HandleOk(s.mem.handles[h]);
  }

  lemma WalkFrees(cfg: Config, m: Memory, r: Reaper, h: nat)
    requires MemoryOk(cfg, m) && ReaperInside(cfg, r) && h < cfg.size
    requires WalkStep(cfg, m, r).mem.handles[h].freed != m.handles[h].freed
    ensures WalkStep(cfg, m, r).mem.handles[h].freed == m.handles[h].freed + 1
    ensures r.pc.HandleFree? && r.thread == h
  {
  }

  lemma FreeingStep(cfg: Config, s: State, g: Trail, act: Action, h: nat)
    requires Inv(cfg, s, g) && h < cfg.size
    requires Step(cfg, s, act).mem.handles[h].freed != s.mem.handles[h].freed
    ensures Step(cfg, s, act).mem.handles[h].freed == s.mem.handles[h].freed + 1
    ensures MayFree(cfg, s, act, h)
  {
    match act
    case Run(t, choice, fails) => AgentFrees(cfg, s, g, t, choice, fails, h);
    case Reap(fails) => ReaperFrees(cfg, s, g, fails, h);
    case Rouse(_, _) =>
    case RouseReaper =>
  }

  // ----- joins

  /** Has agent t joined handle h and returned 0? */
  ghost predicate Joined(cfg: Config, s: State, t: nat, h: nat)
    requires cfg.Valid() && |s.agents| == cfg.Agents()
  {
    && t < |s.agents| && cfg.RoleOf(t).Joiner? && cfg.RoleOf(t).h == h
    && s.agents[t].pc.Done? && s.agents[t].outcome.Success?
  }

  /** Has agent t detached handle h and returned 0, having set the bit itself? */
  ghost predicate Detached(cfg: Config, s: State, t: nat, h: nat)
    requires cfg.Valid() && |s.agents| == cfg.Agents()
  {
    && t < |s.agents| && cfg.RoleOf(t).Detacher? && cfg.RoleOf(t).h == h
    && s.agents[t].pc.Done? && s.agents[t].outcome.Success?
  }

  /** What the start routine of thread h has returned, if it has. */
  ghost function Produced(cfg: Config, acts: seq<Action>, h: nat): nat
    requires cfg.Valid()
  {
    if acts == [] then 0
    else
      var before, act := acts[..|acts| - 1], acts[|acts| - 1];
      var s := Exec(cfg, before);
      if act.Run? && act.t == h < |s.agents| && s.agents[h].pc.Running? then act.choice
      else Produced(cfg, before, h)
  }

  lemma ExiterKeepsValue(cfg: Config, s: State, act: Action, h: nat)
    requires WellFormed(cfg, s) && h < cfg.size
    ensures Step(cfg, s, act).agents[h].val
         == if act.Run? && act.t == h && s.agents[h].pc.Running? then act.choice else s.agents[h].val
  {
    if act.Run? && act.t == h && HandingOver(s.agents[h].pc) {
      HandOverKeepsHandles(cfg, s.mem, h, h, s.agents[h], act.fails);
    }
  }

  lemma {:induction false} ProducedIsKept(cfg: Config, acts: seq<Action>, h: nat)
    requires cfg.Valid() && h < cfg.size
    ensures Exec(cfg, acts).agents[h].val == Produced(cfg, acts, h)
  {
    if acts != [] {
      var before := acts[..|acts| - 1];
      ProducedIsKept(cfg, before, h);
      ExiterKeepsValue(cfg, Exec(cfg, before), acts[|acts| - 1], h);
    }
  }

  /** A join whose caller passes no place for the value delivers none. */
  lemma {:induction false} NothingDelivered(cfg: Config, acts: seq<Action>, t: nat)
    requires cfg.Valid() && t < cfg.Agents() && cfg.RoleOf(t).Joiner? && !cfg.RoleOf(t).wants
    ensures Exec(cfg, acts).agents[t].val == 0
  {
    if acts != [] {
      var before := acts[..|acts| - 1];
      NothingDelivered(cfg, before, t);
      JoinerKeepsValue(cfg, Exec(cfg, before), acts[|acts| - 1], t);
    }
  }

  lemma JoinerKeepsValue(cfg: Config, s: State, act: Action, t: nat)
    requires WellFormed(cfg, s) && t < cfg.Agents() && cfg.RoleOf(t).Joiner? && !cfg.RoleOf(t).wants
    ensures Step(cfg, s, act).agents[t].val == s.agents[t].val
  {
    if act.Run? && act.t == t && cfg.RoleOf(t).h != NULL && HandingOver(s.agents[t].pc) {
      HandOverKeepsHandles(cfg, s.mem, t, cfg.RoleOf(t).h, s.agents[t], act.fails);
    }
  }

  /** A join that returns 0 is the only one, and no detach wins beside it; the thread has finished, the
      value delivered, if the caller wants one, is what its start routine returned, and the handle has been
      freed, once. */
  lemma JoinCorrect(cfg: Config, acts: seq<Action>, t: nat, h: nat)
    requires cfg.Valid() && h < cfg.size && Joined(cfg, Exec(cfg, acts), t, h)
    ensures var s := Exec(cfg, acts);
      && s.mem.handles[h].finished && s.mem.handles[h].freed == 1
      && s.agents[t].val == (if cfg.RoleOf(t).wants then Produced(cfg, acts, h) else 0)
      && (forall u :: Joined(cfg, s, u, h) ==> u == t)
      && (forall u :: !Detached(cfg, s, u, h))
  {
    Reachable(cfg, acts);
    ProducedIsKept(cfg, acts, h);
    if !cfg.RoleOf(t).wants { NothingDelivered(cfg, acts, t); }
    JoinedIsAlone(cfg, Exec(cfg, acts), History(cfg, acts), t, h);
  }

  lemma JoinedIsAlone(cfg: Config, s: State, g: Trail, t: nat, h: nat)
    requires Inv(cfg, s, g) && h < cfg.size && Joined(cfg, s, t, h)
    ensures s.mem.handles[h].finished && s.mem.handles[h].freed == 1
    ensures cfg.RoleOf(t).wants ==> s.agents[t].val == s.agents[h].val
    ensures forall u :: Joined(cfg, s, u, h) ==> u == t
    ensures forall u :: !Detached(cfg, s, u, h)
  {
    assert HandleOk(s.mem.handles[h]);
    assert AgentOk(cfg, s.mem, g, t, s.agents[t]) && AgentOk(cfg, s.mem, g, h, s.agents[h]);
    Counted(cfg, s, g, Joining(h), t);
    JoinedIsFreed(cfg, s, g, t, h);
    forall u | Joined(cfg, s, u, h) ensures u == t { OneWinner(cfg, s, g, Joining(h), t, u); }
    forall u ensures !Detached(cfg, s, u, h) {
      if Detached(cfg, s, u, h) { Counted(cfg, s, g, Detaching(h), u); }
    }
  }

  lemma JoinedIsFreed(cfg: Config, s: State, g: Trail, t: nat, h: nat)
    requires Inv(cfg, s, g) && h < cfg.size && Joined(cfg, s, t, h)
    ensures s.mem.handles[h].freed == 1
  {
    assert HandleOk(s.mem.handles[h]) && AgentOk(cfg, s.mem, g, t, s.agents[t]);
    Counted(cfg, s, g, Joining(h), t);
    NotInTrail(cfg, s, g, h);
    forall u | 0 <= u < |s.agents|
      ensures Weight(Freeing(h), cfg.RoleOf(u), s.agents[u]) == 0
    {
      assert u == t
          || Weight(Joining(h), cfg.RoleOf(t), s.agents[t]) + Weight(Joining(h), cfg.RoleOf(u), s.agents[u]) <= 1;
    }
    Settled(cfg, s, g, Freeing(h));
  }

  /** A joined handle never reaches the reaper. */
  lemma NotInTrail(cfg: Config, s: State, g: Trail, h: nat)
    requires Inv(cfg, s, g) && h < cfg.size && s.mem.handles[h].word.joined
    ensures h !in g.handles
    ensures s.reaper.pc.HandleFree? ==> s.reaper.thread != h
  {
    assert HandleOk(s.mem.handles[h]);
    BookNonNegative(cfg, s, g, Carrying(h));
    assert multiset(g.handles)[h] == 0;
  }

  /** A join fails only on a null handle or when another join or a detach was first; a detach fails only
      on a null handle or when a join was first; a detach that returns 0 leaves the handle detached. */
  lemma {:induction false} CallsFailRightly(cfg: Config, acts: seq<Action>, t: nat)
    requires cfg.Valid() && cfg.size <= t < cfg.Agents() && Exec(cfg, acts).agents[t].pc.Done?
    ensures var role, a, m := cfg.RoleOf(t), Exec(cfg, acts).agents[t], Exec(cfg, acts).mem;
      if role.h == NULL then a.outcome.Invalid?
      else
        var w := m.handles[role.h].word;
        && (role.Joiner? ==> (a.outcome.Success? && w.joined) || (a.outcome.Invalid? && (w.joined || w.detached)))
        && (role.Detacher? ==> if a.outcome.Invalid? then w.joined else w.detached && !a.outcome.Pending?)
  {
    Reachable(cfg, acts);
    var s, g := Exec(cfg, acts), History(cfg, acts);
    assert AgentOk(cfg, s.mem, g, t, s.agents[t]);
    if 0 <= cfg.RoleOf(t).h { Counted(cfg, s, g, Joining(cfg.RoleOf(t).h), t); }
  }

  /** Has agent t set the joined, or the detached, bit of handle h? */
  ghost predicate Sets(cfg: Config, s: State, t: nat, h: nat)
    requires cfg.Valid() && t < |s.agents| == cfg.Agents()
  {
    && cfg.RoleOf(t).h == h
    && ((cfg.RoleOf(t).Joiner? && JoinWon(s.agents[t])) || (cfg.RoleOf(t).Detacher? && DetachWon(s.agents[t])))
  }

  /** The bit in the word and its winner go together: exactly one join, or one detach, has set it. */
  lemma {:induction false} OneSetter(cfg: Config, acts: seq<Action>, h: nat) returns (t: nat)
    requires cfg.Valid() && h < cfg.size
    requires var w := Exec(cfg, acts).mem.handles[h].word; w.joined || w.detached
    ensures t < |Exec(cfg, acts).agents| && Sets(cfg, Exec(cfg, acts), t, h)
    ensures forall u :: 0 <= u < |Exec(cfg, acts).agents| && u != t ==> !Sets(cfg, Exec(cfg, acts), u, h)
  {
    Reachable(cfg, acts);
    t := Setter(cfg, Exec(cfg, acts), History(cfg, acts), h);
  }

  lemma Setter(cfg: Config, s: State, g: Trail, h: nat) returns (t: nat)
    requires Inv(cfg, s, g) && h < cfg.size && (s.mem.handles[h].word.joined || s.mem.handles[h].word.detached)
    ensures t < |s.agents| && Sets(cfg, s, t, h)
    ensures forall u :: 0 <= u < |s.agents| && u != t ==> !Sets(cfg, s, u, h)
  {
    assert HandleOk(s.mem.handles[h]);
    t := Charged(cfg, s, g, if s.mem.handles[h].word.joined then Joining(h) else Detaching(h));
    forall u | 0 <= u < |s.agents| && u != t
      ensures !Sets(cfg, s, u, h)
    {
      Counted(cfg, s, g, Joining(h), u);
      Counted(cfg, s, g, Detaching(h), u);
    }
  }

  /** Waking one thread is enough: never more than one sleeps on `finished`, and once the thread has
      finished, it sleeps only until the wake-up that the thread is about to make. */
  lemma SingleSleeper(cfg: Config, acts: seq<Action>, h: nat)
    requires cfg.Valid() && h < cfg.size
    ensures var s := Exec(cfg, acts);
      && |s.mem.handles[h].waiters| <= 1
      && (s.mem.handles[h].finished && s.mem.handles[h].waiters != [] ==> s.agents[h].pc.WakeJoiner?)
  {
    Reachable(cfg, acts);
    var s := Exec(cfg, acts);
    assert WaitersOk(cfg, s.mem, s.agents, h);
  }

  // ----- the hand-over

  /** Who has put handle h into the queue, in order. */
  ghost function Enqueuers(cfg: Config, acts: seq<Action>, h: nat): seq<nat>
    requires cfg.Valid()
  {
    if acts == [] then []
    else
      var before, act := acts[..|acts| - 1], acts[|acts| - 1];
      Enqueuers(cfg, before, h)
      + if EnqueuesNow(cfg, Exec(cfg, before), act) && cfg.RoleOf(act.t).h == h then [act.t] else []
  }

  /** Does this action link a node, by the first of the two writes? */
  ghost predicate EnqueuesNow(cfg: Config, s: State, act: Action)
    requires WellFormed(cfg, s)
  {
    && act.Run? && act.t < |s.agents|
    && (s.agents[act.t].pc.WriteHead? || s.agents[act.t].pc.LinkOld?)
    && Step(cfg, s, act).agents[act.t].pc.WriteTail?
  }

  /** Which nodes of the trail carry handle h. */
  function Carriers(ids: seq<nat>, handles: seq<nat>, h: nat): seq<nat>
    requires |ids| == |handles|
  {
    if ids == [] then []
    else
      var n := |ids| - 1;
      Carriers(ids[..n], handles[..n], h) + if handles[n] == h then [ids[n]] else []
  }

  lemma LinkingIsEnqueuing(cfg: Config, s: State, g: Trail, act: Action)
    requires Inv(cfg, s, g)
    ensures var g' := NextTrail(cfg, s, g, act);
      if EnqueuesNow(cfg, s, act)
      then 0 <= cfg.RoleOf(act.t).h && g'.ids == g.ids + [act.t] && g'.handles == g.handles + [cfg.RoleOf(act.t).h]
      else g'.ids == g.ids && g'.handles == g.handles
  {
    if act.Run? && act.t < |s.agents| { assert AgentOk(cfg, s.mem, g, act.t, s.agents[act.t]); }
  }

  lemma {:induction false} EnqueuersAreCarriers(cfg: Config, acts: seq<Action>, h: nat)
    requires cfg.Valid()
    ensures var g := History(cfg, acts);
      |g.ids| == |g.handles| && Enqueuers(cfg, acts, h) == Carriers(g.ids, g.handles, h)
  {
    if acts != [] {
      var before, act := acts[..|acts| - 1], acts[|acts| - 1];
      EnqueuersAreCarriers(cfg, before, h);
      Reachable(cfg, before);
      var s, g := Exec(cfg, before), History(cfg, before);
      LinkingIsEnqueuing(cfg, s, g, act);
      if EnqueuesNow(cfg, s, act) { CarriersGrow(g.ids, g.handles, act.t, cfg.RoleOf(act.t).h, h); }
    }
  }

  lemma CarriersGrow(ids: seq<nat>, handles: seq<nat>, t: nat, x: nat, h: nat)
    requires |ids| == |handles|
    ensures Carriers(ids + [t], handles + [x], h) == Carriers(ids, handles, h) + if x == h then [t] else []
  {
    assert (ids + [t])[..|ids|] == ids;
    assert (handles + [x])[..|handles|] == handles;
  }

  lemma {:induction false} NoCarrier(ids: seq<nat>, handles: seq<nat>, h: nat)
    requires |ids| == |handles| && multiset(handles)[h] == 0
    ensures Carriers(ids, handles, h) == []
  {
    if ids != [] {
      var n := |ids| - 1;
      assert handles == handles[..n] + [handles[n]];
      NoCarrier(ids[..n], handles[..n], h);
    }
  }

  lemma {:induction false} TheCarrier(ids: seq<nat>, handles: seq<nat>, h: nat) returns (i: nat)
    requires |ids| == |handles| && multiset(handles)[h] == 1
    ensures i < |ids| && handles[i] == h && Carriers(ids, handles, h) == [ids[i]]
  {
    var n := |ids| - 1;
    assert handles == handles[..n] + [handles[n]];
    if handles[n] == h {
      i := n;
      NoCarrier(ids[..n], handles[..n], h);
    } else {
      i := TheCarrier(ids[..n], handles[..n], h);
    }
  }

  /** An exit owes handle h nothing more once it is over, and neither does the detach that won. */
  lemma HandedOver(cfg: Config, s: State, g: Trail, t: nat, h: nat)
    requires Inv(cfg, s, g) && h < cfg.size && s.agents[h].pc.Done? && Detached(cfg, s, t, h)
    ensures multiset(g.handles)[h] == 1
  {
    var hd := s.mem.handles[h];
    assert HandleOk(hd) && OwedOk(cfg, s.mem, s.agents, h);
    assert AgentOk(cfg, s.mem, g, h, s.agents[h]) && AgentOk(cfg, s.mem, g, t, s.agents[t]);
    Counted(cfg, s, g, Detaching(h), t);
    forall u | 0 <= u < |s.agents|
      ensures !Owes(cfg.RoleOf(u), s.agents[u], h) && Weight(Carrying(h), cfg.RoleOf(u), s.agents[u]) == 0
    {
      OnlyWinnerCarries(cfg, s, g, t, u, h);
    }
    Settled(cfg, s, g, Carrying(h));
  }

  lemma OnlyWinnerCarries(cfg: Config, s: State, g: Trail, t: nat, u: nat, h: nat)
    requires Inv(cfg, s, g) && h < cfg.size && s.agents[h].pc.Done? && Detached(cfg, s, t, h) && u < |s.agents|
    ensures !Owes(cfg.RoleOf(u), s.agents[u], h) && Weight(Carrying(h), cfg.RoleOf(u), s.agents[u]) == 0
  {
    assert AgentOk(cfg, s.mem, g, u, s.agents[u]);
    if cfg.RoleOf(u).Detacher? && cfg.RoleOf(u).h == h && DetachWon(s.agents[u]) {
      OneWinner(cfg, s, g, Detaching(h), t, u);
    }
  }

  /** Has agent u the right to put its handle into the queue: an exit, or the detach that won? */
  ghost predicate Entitled(cfg: Config, s: State, u: nat)
    requires cfg.Valid() && |s.agents| == cfg.Agents()
  {
    u < |s.agents| && (cfg.RoleOf(u).Exiter? || (cfg.RoleOf(u).Detacher? && DetachWon(s.agents[u])))
  }

  lemma StaysEntitled(cfg: Config, s: State, g: Trail, act: Action, u: nat)
    requires Inv(cfg, s, g) && Entitled(cfg, s, u)
    ensures Entitled(cfg, Step(cfg, s, act), u)
  {
    assert AgentOk(cfg, s.mem, g, u, s.agents[u]);
    if act.Run? && act.t == u && cfg.RoleOf(u).h != NULL && HandingOver(s.agents[u].pc) {
      HandsOver(cfg, s.mem, g, u, s.agents[u]);
      HandOverStaysOk(cfg, s.mem, g, u, cfg.RoleOf(u).h, s.agents[u], act.fails);
    }
  }

  lemma EnqueuerEntitled(cfg: Config, s: State, g: Trail, act: Action)
    requires Inv(cfg, s, g) && EnqueuesNow(cfg, s, act)
    ensures Entitled(cfg, Step(cfg, s, act), act.t)
  {
    assert AgentOk(cfg, s.mem, g, act.t, s.agents[act.t]);
    HandsOver(cfg, s.mem, g, act.t, s.agents[act.t]);
  }

  lemma {:induction false} LinkersEntitled(cfg: Config, acts: seq<Action>, i: nat)
    requires cfg.Valid() && i < |History(cfg, acts).ids|
    ensures Entitled(cfg, Exec(cfg, acts), History(cfg, acts).ids[i])
  {
    if acts != [] {
      var before, act := acts[..|acts| - 1], acts[|acts| - 1];
      var s, g := Exec(cfg, before), History(cfg, before);
      Reachable(cfg, before);
      LinkingIsEnqueuing(cfg, s, g, act);
      if i < |g.ids| {
        LinkersEntitled(cfg, before, i);
        StaysEntitled(cfg, s, g, act, g.ids[i]);
      } else {
        EnqueuerEntitled(cfg, s, g, act);
      }
    }
  }

  lemma EitherEnqueues(cfg: Config, s: State, g: Trail, t: nat, u: nat, h: nat)
    requires Inv(cfg, s, g) && h < cfg.size && Detached(cfg, s, t, h)
    requires Entitled(cfg, s, u) && cfg.RoleOf(u).h == h
    ensures u == h || u == t
  {
    assert HandleOk(s.mem.handles[h]);
    if cfg.RoleOf(u).Detacher? { OneWinner(cfg, s, g, Detaching(h), t, u); }
  }

  lemma OneCarrier(cfg: Config, s: State, g: Trail, t: nat, h: nat)
    requires Inv(cfg, s, g) && h < cfg.size && s.agents[h].pc.Done? && Detached(cfg, s, t, h)
    requires forall i :: 0 <= i < |g.ids| ==> Entitled(cfg, s, g.ids[i])
    ensures Carriers(g.ids, g.handles, h) == [h] || Carriers(g.ids, g.handles, h) == [t]
  {
    HandedOver(cfg, s, g, t, h);
    var i := TheCarrier(g.ids, g.handles, h);
    EitherEnqueues(cfg, s, g, t, g.ids[i], h);
  }

  lemma AllLinkersEntitled(cfg: Config, acts: seq<Action>)
    requires cfg.Valid()
    ensures var s, g := Exec(cfg, acts), History(cfg, acts);
      forall i :: 0 <= i < |g.ids| ==> Entitled(cfg, s, g.ids[i])
  {
    forall i | 0 <= i < |History(cfg, acts).ids|
      ensures Entitled(cfg, Exec(cfg, acts), History(cfg, acts).ids[i])
    {
      LinkersEntitled(cfg, acts, i);
    }
  }

  /** If a detach that won and the thread's exit are both over, the handle has been queued exactly once,
      whichever of the two looked last, and by one of these two. */
  lemma OneSidedHandOff(cfg: Config, acts: seq<Action>, t: nat, h: nat)
    requires cfg.Valid() && h < cfg.size
    requires Exec(cfg, acts).agents[h].pc.Done? && Detached(cfg, Exec(cfg, acts), t, h)
    ensures Enqueuers(cfg, acts, h) == [h] || Enqueuers(cfg, acts, h) == [t]
  {
    Reachable(cfg, acts);
    EnqueuersAreCarriers(cfg, acts, h);
    AllLinkersEntitled(cfg, acts);
    OneCarrier(cfg, Exec(cfg, acts), History(cfg, acts), t, h);
  }

  // ----- the queue

  /** Following `next` from p one meets exactly the handles hs. */
  ghost predicate Path(nodes: seq<Node>, p: int, hs: seq<nat>)
    decreases |hs|
  {
    if hs == [] then p == NULL
    else 0 <= p < |nodes| && nodes[p].thread == hs[0] && Path(nodes, nodes[p].next, hs[1..])
  }

  /** The handles in the order in which they were linked into the queue. */
  ghost function LinkOrder(cfg: Config, acts: seq<Action>): seq<int>
    requires cfg.Valid()
  {
    if acts == [] then []
    else
      var before, act := acts[..|acts| - 1], acts[|acts| - 1];
      LinkOrder(cfg, before) + if EnqueuesNow(cfg, Exec(cfg, before), act) then [cfg.RoleOf(act.t).h] else []
  }

  /** The handles in the order in which the reaper was through with them. */
  ghost function ReapOrder(cfg: Config, acts: seq<Action>): seq<int>
    requires cfg.Valid()
  {
    if acts == [] then []
    else
      var before, act := acts[..|acts| - 1], acts[|acts| - 1];
      var r := Exec(cfg, before).reaper;
      ReapOrder(cfg, before) + if act.Reap? && r.pc.NodeFree? then [r.thread] else []
  }

  lemma {:induction false} LinkOrderIsTrail(cfg: Config, acts: seq<Action>)
    requires cfg.Valid()
    ensures LinkOrder(cfg, acts) == History(cfg, acts).handles
  {
    if acts != [] {
      var before := acts[..|acts| - 1];
      LinkOrderIsTrail(cfg, before);
      Reachable(cfg, before);
      LinkingIsEnqueuing(cfg, Exec(cfg, before), History(cfg, before), acts[|acts| - 1]);
    }
  }

  lemma DoneGrowsBy(m: Memory, r: Reaper, g: Trail)
    requires ReaperOk(m, r, g)
    ensures var g' := ReaperTrail(g, r);
      && g.done <= g'.done <= |g'.handles|
      && g'.handles[..g'.done] == g.handles[..g.done] + (if r.pc.NodeFree? then [r.thread] else [])
  {
  }

  /** The first `done` handles of the trail grow by the one the reaper is through with. */
  lemma DoneGrows(cfg: Config, s: State, g: Trail, act: Action)
    requires WellFormed(cfg, s) && ReaperOk(s.mem, s.reaper, g)
    ensures var g' := NextTrail(cfg, s, g, act);
      && g.done <= g'.done <= |g'.handles|
      && g'.handles[..g'.done]
         == g.handles[..g.done] + (if act.Reap? && s.reaper.pc.NodeFree? then [s.reaper.thread] else [])
  {
    if act.Reap? { DoneGrowsBy(s.mem, s.reaper, g); }
  }

  lemma {:induction false} ReapOrderIsTrail(cfg: Config, acts: seq<Action>)
    requires cfg.Valid()
    ensures var g := History(cfg, acts);
      g.done <= |g.handles| && ReapOrder(cfg, acts) == g.handles[..g.done]
  {
    if acts != [] {
      var before := acts[..|acts| - 1];
      ReapOrderIsTrail(cfg, before);
      Reachable(cfg, before);
      DoneGrows(cfg, Exec(cfg, before), History(cfg, before), acts[|acts| - 1]);
    }
  }

  lemma {:induction false} SharedPath(cfg: Config, m: Memory, g: Trail, i: nat)
    requires cfg.Valid() && QueueOk(cfg, m, g) && g.taken <= i <= |g.ids|
    ensures Path(m.nodes, if i == |g.ids| then NULL else g.ids[i], g.handles[i..])
    decreases |g.ids| - i
  {
    if i < |g.ids| {
      assert NodeOk(m, g, i);
      SharedPath(cfg, m, g, i + 1);
      assert g.handles[i..][1..] == g.handles[i + 1..];
    }
  }

  lemma {:induction false} PrivatePath(cfg: Config, m: Memory, g: Trail, i: nat)
    requires cfg.Valid() && QueueOk(cfg, m, g) && g.done <= i <= g.taken
    ensures Path(m.nodes, if i == g.taken then NULL else g.ids[i], g.handles[i..g.taken])
    decreases g.taken - i
  {
    if i < g.taken {
      assert NodeOk(m, g, i);
      PrivatePath(cfg, m, g, i + 1);
      assert g.handles[i..g.taken][1..] == g.handles[i + 1..g.taken];
    }
  }

  /** Where the reaper's private list starts: it has one from the taking of the list to its last node. */
  function PrivateHead(r: Reaper): int {
    if r.pc.TailClear? || r.pc.QueueUnlock? || r.pc.NodeRead? || r.pc.ReapMark? || r.pc.HandleFree? || r.pc.NodeFree?
    then r.cur else NULL
  }

  /** The queue is first in, first out: what the reaper is through with, then its private list, then the
      shared list, is at every step the order in which the handles were linked. */
  lemma {:induction false} FifoOrder(cfg: Config, acts: seq<Action>) returns (batch: seq<nat>, queue: seq<nat>)
    requires cfg.Valid()
    ensures LinkOrder(cfg, acts) == ReapOrder(cfg, acts) + batch + queue
    ensures Path(Exec(cfg, acts).mem.nodes, PrivateHead(Exec(cfg, acts).reaper), batch)
    ensures Path(Exec(cfg, acts).mem.nodes, Exec(cfg, acts).mem.head, queue)
  {
    var g := History(cfg, acts);
    Reachable(cfg, acts);
    QueuePaths(cfg, Exec(cfg, acts), g);
    LinkOrderIsTrail(cfg, acts);
    ReapOrderIsTrail(cfg, acts);
    batch, queue := g.handles[g.done..g.taken], g.handles[g.taken..];
    ThreeParts(g.handles, g.done, g.taken);
  }

  lemma ThreeParts(hs: seq<nat>, i: nat, j: nat)
    requires i <= j <= |hs|
    ensures hs == hs[..i] + hs[i..j] + hs[j..]
  {
  }

  /** Every handle is linked at most once. */
  lemma LinkedOnce(cfg: Config, acts: seq<Action>, i: nat, j: nat)
    requires cfg.Valid() && i < j < |LinkOrder(cfg, acts)|
    ensures LinkOrder(cfg, acts)[i] != LinkOrder(cfg, acts)[j]
  {
    Reachable(cfg, acts);
    LinkOrderIsTrail(cfg, acts);
    NodesDiffer(cfg, Exec(cfg, acts), History(cfg, acts));
  }

  lemma QueuePaths(cfg: Config, s: State, g: Trail)
    requires Inv(cfg, s, g)
    ensures g.done <= g.taken <= |g.handles|
    ensures Path(s.mem.nodes, PrivateHead(s.reaper), g.handles[g.done..g.taken])
    ensures Path(s.mem.nodes, s.mem.head, g.handles[g.taken..])
  {
    SharedPath(cfg, s.mem, g, g.taken);
    PrivatePath(cfg, s.mem, g, g.done);
  }

  /** No agent writes into a node that the reaper has taken. */
  lemma BatchUntouched(cfg: Config, acts: seq<Action>, t: nat, choice: nat, fails: bool, i: nat)
    requires cfg.Valid() && i < History(cfg, acts).taken && t < cfg.Agents()
    ensures var s, g := Exec(cfg, acts), History(cfg, acts);
      && g.taken <= |g.ids| && g.ids[i] < |s.mem.nodes|
      && Step(cfg, s, Run(t, choice, fails)).mem.nodes[g.ids[i]] == s.mem.nodes[g.ids[i]]
  {
    Reachable(cfg, acts);
    TakenIsPrivate(cfg, Exec(cfg, acts), History(cfg, acts), t, choice, fails, i);
  }

  lemma TakenIsPrivate(cfg: Config, s: State, g: Trail, t: nat, choice: nat, fails: bool, i: nat)
    requires Inv(cfg, s, g) && i < g.taken && t < |s.agents|
    ensures Step(cfg, s, Run(t, choice, fails)).mem.nodes[g.ids[i]] == s.mem.nodes[g.ids[i]]
  {
    var a := s.agents[t];
    assert AgentOk(cfg, s.mem, g, t, s.agents[t]);
    AgentTouches(cfg, s.mem, g, t, a, choice, fails);
    if HandingOver(a.pc) {
      HandsOver(cfg, s.mem, g, t, a);
      NodesDiffer(cfg, s, g);
      if Unlinked(a.pc) { CarriedIsNew(cfg, s, g, t, cfg.RoleOf(t).h); }
    }
  }

  // ----- the nodes

  /** A node has been freed once if the reaper is through with it, and not at all otherwise. */
  ghost predicate NodeFreed(m: Memory, g: Trail, t: nat)
    requires g.done <= |g.ids| && t < |m.nodes|
  {
    m.nodes[t].freed == One(t in g.ids[..g.done])
  }

  lemma HandOverFrees(cfg: Config, m: Memory, u: nat, h: nat, a: Agent, fails: bool, t: nat)
    requires MemoryOk(cfg, m) && AgentInside(cfg, a) && u < cfg.Agents() && h < cfg.size && t < |m.nodes|
    ensures var m' := HandOverStep(cfg, m, u, h, a, fails).mem;
      |m'.nodes| == |m.nodes| && m'.nodes[t].freed == if a.pc.Alloc? && t == u then 0 else m.nodes[t].freed
  {
  }

  lemma AgentFreesNoNode(cfg: Config, s: State, g: Trail, u: nat, choice: nat, fails: bool, t: nat)
    requires Inv(cfg, s, g) && u < |s.agents| && t < |s.mem.nodes| && NodeFreed(s.mem, g, t)
    ensures AgentStep(cfg, s.mem, u, s.agents[u], choice, fails).mem.nodes[t].freed == s.mem.nodes[t].freed
  {
    var a := s.agents[u];
    if cfg.RoleOf(u).h != NULL && HandingOver(a.pc) {
      HandOverFrees(cfg, s.mem, u, cfg.RoleOf(u).h, a, fails, t);
      if a.pc.Alloc? { CarriedIsNew(cfg, s, g, u, cfg.RoleOf(u).h); }
    }
  }

  lemma ReaperFreesNode(cfg: Config, s: State, g: Trail, fails: bool, t: nat)
    requires Inv(cfg, s, g) && t < |s.mem.nodes| && NodeFreed(s.mem, g, t)
    ensures NodeFreed(ReaperStep(cfg, s.mem, s.reaper, fails).mem, ReaperTrail(g, s.reaper), t)
  {
    var m, r := s.mem, s.reaper;
    ReaperRuns(cfg, m, r, fails);
    if r.pc.NodeFree? {
      NodesDiffer(cfg, s, g);
      assert g.ids[..g.done + 1] == g.ids[..g.done] + [g.ids[g.done]];
    }
  }

  lemma StepFreesNode(cfg: Config, s: State, g: Trail, act: Action, t: nat)
    requires Inv(cfg, s, g) && t < |s.mem.nodes| && NodeFreed(s.mem, g, t)
    ensures var s', g' := Step(cfg, s, act), NextTrail(cfg, s, g, act);
      g'.done <= |g'.ids| && |s'.mem.nodes| == |s.mem.nodes| && NodeFreed(s'.mem, g', t)
  {
    StepKeepsInv(cfg, s, g, act);
    match act
    case Run(u, choice, fails) =>
      if u < |s.agents| {
        AgentFreesNoNode(cfg, s, g, u, choice, fails, t);
        assert NextTrail(cfg, s, g, act).ids[..g.done] == g.ids[..g.done];
      }
    case Reap(fails) => ReaperFreesNode(cfg, s, g, fails, t);
    case Rouse(_, _) =>
    case RouseReaper =>
  }

  lemma {:induction false} NodesFreedOnce(cfg: Config, acts: seq<Action>, t: nat)
    requires cfg.Valid() && t < cfg.Agents()
    ensures var s, g := Exec(cfg, acts), History(cfg, acts);
      g.done <= |g.ids| && t < |s.mem.nodes| && NodeFreed(s.mem, g, t)
  {
    if acts != [] {
      var before := acts[..|acts| - 1];
      NodesFreedOnce(cfg, before, t);
      Reachable(cfg, before);
      StepFreesNode(cfg, Exec(cfg, before), History(cfg, before), acts[|acts| - 1], t);
    }
  }

  // ----- the counter

  /** How many agents have linked a node without having counted it. */
  function Lag(cfg: Config, s: State): int
    requires cfg.Valid() && |s.agents| == cfg.Agents()
  {
    Total(cfg, Lagging, s.agents)
  }

  lemma {:induction false} PathUnique(nodes: seq<Node>, p: int, a: seq<nat>, b: seq<nat>)
    requires Path(nodes, p, a) && Path(nodes, p, b)
    ensures a == b
    decreases |a|
  {
    if a != [] { PathUnique(nodes, nodes[p].next, a[1..], b[1..]); }
  }

  /** At every step `count` is the length of the list at `head`, and of what the reaper has taken and not yet
      subtracted, less what is linked and not yet counted; so it may be negative, but never for long. */
  lemma CounterAccounting(cfg: Config, acts: seq<Action>, batch: seq<nat>, queue: seq<nat>)
    requires cfg.Valid()
    requires Path(Exec(cfg, acts).mem.nodes, PrivateHead(Exec(cfg, acts).reaper), batch)
    requires Path(Exec(cfg, acts).mem.nodes, Exec(cfg, acts).mem.head, queue)
    ensures var s := Exec(cfg, acts);
      s.mem.count == |queue| + |batch| + s.reaper.processed - Lag(cfg, s)
    ensures 0 <= Lag(cfg, Exec(cfg, acts))
  {
    Reachable(cfg, acts);
    ListsCounted(cfg, Exec(cfg, acts), History(cfg, acts), batch, queue);
  }

  lemma ListsCounted(cfg: Config, s: State, g: Trail, batch: seq<nat>, queue: seq<nat>)
    requires Inv(cfg, s, g)
    requires Path(s.mem.nodes, PrivateHead(s.reaper), batch) && Path(s.mem.nodes, s.mem.head, queue)
    ensures s.mem.count == |queue| + |batch| + s.reaper.processed - Lag(cfg, s)
    ensures 0 <= Lag(cfg, s)
  {
    QueuePaths(cfg, s, g);
    PathUnique(s.mem.nodes, PrivateHead(s.reaper), batch, g.handles[g.done..g.taken]);
    PathUnique(s.mem.nodes, s.mem.head, queue, g.handles[g.taken..]);
    assert Total(cfg, Lagging, s.agents) == Book(Lagging, s.mem, s.reaper, g);
    BookNonNegative(cfg, s, g, Lagging);
  }

  /** `reaper_main` reports an error when it is about to subtract more than there is. That says nothing is
      wrong: it happens exactly when more linked nodes are uncounted than the list at `head` holds. */
  lemma {:induction false} UnderflowReported(cfg: Config, acts: seq<Action>, queue: seq<nat>)
    requires cfg.Valid() && Exec(cfg, acts).reaper.pc.CountSub?
    requires Path(Exec(cfg, acts).mem.nodes, Exec(cfg, acts).mem.head, queue)
    ensures var s := Exec(cfg, acts);
      s.mem.count < s.reaper.processed <==> |queue| < Lag(cfg, s)
  {
    CounterAccounting(cfg, acts, [], queue);
  }

  /** No wake-up of the reaper is lost: while it sleeps, `count` is 0 or the wake-up is still to come; and
      if the list is not empty, some agent has still its increment or its wake-up to do. */
  lemma NoLostReaperWakeup(cfg: Config, acts: seq<Action>)
    requires cfg.Valid() && Exec(cfg, acts).mem.dozing
    ensures var s := Exec(cfg, acts);
      && s.reaper.pc.CountAsleep? && 0 <= s.mem.count
      && (s.mem.count == 0 || exists t :: 0 <= t < |s.agents| && s.agents[t].pc.WakeReaper?)
      && (s.mem.head != NULL ==>
            exists t :: 0 <= t < |s.agents| && (Uncounted(s.agents[t].pc) || s.agents[t].pc.WakeReaper?))
  {
    Reachable(cfg, acts);
    if Exec(cfg, acts).mem.head != NULL { SleepsOnNothing(cfg, Exec(cfg, acts), History(cfg, acts)); }
  }

  lemma SleepsOnNothing(cfg: Config, s: State, g: Trail)
    requires Inv(cfg, s, g) && s.mem.dozing && s.mem.head != NULL
    ensures exists t :: 0 <= t < |s.agents| && (Uncounted(s.agents[t].pc) || s.agents[t].pc.WakeReaper?)
  {
    if s.mem.count == 0 {
      var t := Charged(cfg, s, g, Lagging);
    } else {
      var t :| 0 <= t < |s.agents| && s.agents[t].pc.WakeReaper?;
    }
  }

  // ----- nothing leaks

  /** An agent with nothing to do for a handle on its way to the reaper: a thread still running its start
      routine, a detach not yet begun, any join, or any agent that has returned. */
  predicate Idle(role: Role, a: Agent) {
    role.Joiner? || a.pc.Done? || a.pc.Running? || a.pc.LoadWord?
  }

  ghost predicate AtRest(cfg: Config, s: State)
    requires cfg.Valid() && |s.agents| == cfg.Agents()
  {
    && (forall t :: 0 <= t < |s.agents| ==> Idle(cfg.RoleOf(t), s.agents[t]))
    && (s.mem.dozing || (s.reaper.pc.Off? && !s.mem.cloned))
  }

  lemma IdleWeighsNothing(cfg: Config, m: Memory, g: Trail, t: nat, a: Agent, k: Kind)
    requires cfg.Valid() && |m.handles| == cfg.size && t < cfg.Agents()
    requires AgentOk(cfg, m, g, t, a) && Idle(cfg.RoleOf(t), a)
    ensures !k.Joining? && !k.Detaching? && !k.Freeing? ==> Weight(k, cfg.RoleOf(t), a) == 0
    ensures !a.pc.WakeReaper?
    ensures forall h: nat :: !Owes(cfg.RoleOf(t), a, h)
  {
  }

  lemma RestBooks(cfg: Config, s: State, g: Trail, k: Kind)
    requires Inv(cfg, s, g) && AtRest(cfg, s) && !k.Joining? && !k.Detaching? && !k.Freeing?
    ensures Book(k, s.mem, s.reaper, g) == 0
  {
    forall t | 0 <= t < |s.agents|
      ensures Weight(k, cfg.RoleOf(t), s.agents[t]) == 0
    {
      assert AgentOk(cfg, s.mem, g, t, s.agents[t]);
      IdleWeighsNothing(cfg, s.mem, g, t, s.agents[t], k);
    }
    Settled(cfg, s, g, k);
  }

  lemma RestOwesNothing(cfg: Config, s: State, g: Trail, t: nat)
    requires Inv(cfg, s, g) && AtRest(cfg, s) && t < |s.agents|
    ensures !s.agents[t].pc.WakeReaper?
    ensures forall h: nat :: !Owes(cfg.RoleOf(t), s.agents[t], h)
  {
    assert AgentOk(cfg, s.mem, g, t, s.agents[t]);
    IdleWeighsNothing(cfg, s.mem, g, t, s.agents[t], Holding);
  }

  lemma RestIsEmpty(cfg: Config, s: State, g: Trail)
    requires Inv(cfg, s, g) && AtRest(cfg, s)
    ensures g.done == |g.ids| && s.mem.count == 0 && s.mem.head == NULL
  {
    RestBooks(cfg, s, g, Lagging);
    RestBooks(cfg, s, g, Starting);
    forall t | 0 <= t < |s.agents| ensures !s.agents[t].pc.WakeReaper? { RestOwesNothing(cfg, s, g, t); }
  }

  lemma StepLater(cfg: Config, s: State, g: Trail, act: Action, h: nat)
    requires Inv(cfg, s, g) && h < cfg.size && s.mem.handles[h].word.reaped
    ensures Step(cfg, s, act).mem.handles[h].word.reaped
  {
    match act
    case Run(t, choice, fails) =>
      if t < |s.agents| {
        assert AgentOk(cfg, s.mem, g, t, s.agents[t]);
        AgentLater(cfg, s.mem, g, t, s.agents[t], choice, fails);
        assert HandleLater(s.mem.handles[h], Step(cfg, s, act).mem.handles[h], h != t);
      }
    case Reap(fails) =>
      ReaperLater(cfg, s.mem, s.reaper, fails);
      assert HandleLater(s.mem.handles[h], Step(cfg, s, act).mem.handles[h], h != NULL);
    case Rouse(_, _) =>
    case RouseReaper =>
  }

  /** What the reaper is through with is marked reaped. */
  lemma {:induction false} DoneIsReaped(cfg: Config, acts: seq<Action>, i: nat)
    requires cfg.Valid() && i < History(cfg, acts).done
    ensures var s, g := Exec(cfg, acts), History(cfg, acts);
      i < |g.handles| && g.handles[i] < cfg.size && s.mem.handles[g.handles[i]].word.reaped
  {
    if acts != [] {
      var before, act := acts[..|acts| - 1], acts[|acts| - 1];
      var s, g := Exec(cfg, before), History(cfg, before);
      Reachable(cfg, before);
      if i < g.done { DoneIsReaped(cfg, before, i); }
      StepKeepsDone(cfg, s, g, act, i);
    }
  }

  lemma TrailGrows(cfg: Config, s: State, g: Trail, act: Action)
    requires WellFormed(cfg, s)
    ensures var g' := NextTrail(cfg, s, g, act);
      && g.handles <= g'.handles
      && (g'.done == g.done || (g'.done == g.done + 1 && act.Reap? && s.reaper.pc.NodeFree?))
  {
  }

  lemma StepKeepsDone(cfg: Config, s: State, g: Trail, act: Action, i: nat)
    requires Inv(cfg, s, g) && i < NextTrail(cfg, s, g, act).done
    requires i < g.done ==> s.mem.handles[g.handles[i]].word.reaped
    ensures var s', g' := Step(cfg, s, act), NextTrail(cfg, s, g, act);
      i < |g'.handles| && g'.handles[i] < cfg.size && s'.mem.handles[g'.handles[i]].word.reaped
  {
    TrailGrows(cfg, s, g, act);
    TrailIsReaped(s.mem, s.reaper, g, i);
    StepLater(cfg, s, g, act, g.handles[i]);
  }

  lemma TrailIsReaped(m: Memory, r: Reaper, g: Trail, i: nat)
    requires ReaperOk(m, r, g) && i <= g.done
    requires i < g.done ==> g.handles[i] < |m.handles| && m.handles[g.handles[i]].word.reaped
    requires i == g.done ==> r.pc.NodeFree?
    ensures i < |g.handles| && g.handles[i] < |m.handles| && m.handles[g.handles[i]].word.reaped
  {
  }

  /** At rest, a handle that was handed over is marked, and one that is marked has been freed. */
  lemma ReapedIsFreed(cfg: Config, s: State, g: Trail, h: nat)
    requires Inv(cfg, s, g) && AtRest(cfg, s) && h < cfg.size
    requires s.mem.handles[h].word.detached && s.mem.handles[h].word.reaped
    ensures s.mem.handles[h].freed == 1
  {
    assert HandleOk(s.mem.handles[h]);
    forall t | 0 <= t < |s.agents|
      ensures Weight(Freeing(h), cfg.RoleOf(t), s.agents[t]) == 0
    {
      Counted(cfg, s, g, Joining(h), t);
    }
    Settled(cfg, s, g, Freeing(h));
  }

  lemma RestIsQueued(cfg: Config, s: State, g: Trail, h: nat) returns (i: nat)
    requires Inv(cfg, s, g) && AtRest(cfg, s) && h < cfg.size
    requires s.mem.handles[h].word.detached && s.mem.handles[h].finished
    ensures i < g.done && i < |g.handles| && g.handles[i] == h
  {
    assert OwedOk(cfg, s.mem, s.agents, h);
    forall t | 0 <= t < |s.agents| ensures !Owes(cfg.RoleOf(t), s.agents[t], h) { RestOwesNothing(cfg, s, g, t); }
    RestBooks(cfg, s, g, Carrying(h));
    RestIsEmpty(cfg, s, g);
    assert h in multiset(g.handles);
    i :| 0 <= i < |g.handles| && g.handles[i] == h;
  }

  /** Nothing leaks: whenever no exit, detach or hand-over is under way and the reaper sleeps or was never
      needed, the list is empty and every handle both detached and finished has been freed, once. */
  lemma NoLeak(cfg: Config, acts: seq<Action>)
    requires cfg.Valid() && AtRest(cfg, Exec(cfg, acts))
    ensures var m := Exec(cfg, acts).mem;
      && m.head == NULL && m.count == 0
      && forall h :: 0 <= h < cfg.size ==>
           m.handles[h].word.detached && m.handles[h].finished ==> m.handles[h].freed == 1
  {
    Reachable(cfg, acts);
    var s, g := Exec(cfg, acts), History(cfg, acts);
    RestIsEmpty(cfg, s, g);
    forall h | 0 <= h < cfg.size && s.mem.handles[h].word.detached && s.mem.handles[h].finished
      ensures s.mem.handles[h].freed == 1
    {
      var i := RestIsQueued(cfg, s, g, h);
      DoneIsReaped(cfg, acts, i);
      ReapedIsFreed(cfg, s, g, h);
    }
  }

  // ----- nobody gets stuck

  /** No agent has a step left that changes anything. */
  ghost predicate AgentsStuck(cfg: Config, s: State)
    requires WellFormed(cfg, s)
  {
    forall t :: 0 <= t < |s.agents| ==> Step(cfg, s, Run(t, 0, false)) == s
  }

  /** No agent and not the reaper has. */
  ghost predicate Stuck(cfg: Config, s: State)
    requires WellFormed(cfg, s)
  {
    AgentsStuck(cfg, s) && Step(cfg, s, Reap(false)) == s
  }

  lemma OwnMoves(hd: Handle, t: nat, role: Role, a: Agent, choice: nat)
    requires OwnOk(hd, role, a) && !HandingOver(a.pc) && !a.pc.Done?
    requires role.Joiner? && a.pc.Asleep? ==> t !in hd.waiters
    ensures OwnStep(hd, t, role, a, choice, false).a != a
  {
  }

  lemma HandOverMoves(cfg: Config, m: Memory, t: nat, h: nat, a: Agent)
    requires MemoryOk(cfg, m) && AgentInside(cfg, a) && t < cfg.Agents() && h < cfg.size
    requires HandingOver(a.pc) && !(a.pc.Lock? && m.locked)
    ensures HandOverStep(cfg, m, t, h, a, false).a != a
  {
  }

  /** Agent t has returned, waits for the queue lock, or sleeps on `finished`. */
  ghost predicate Blocked(cfg: Config, s: State, t: nat)
    requires WellFormed(cfg, s) && t < |s.agents|
  {
    var role, a := cfg.RoleOf(t), s.agents[t];
    || a.pc.Done?
    || (a.pc.Lock? && s.mem.locked)
    || (role.Joiner? && 0 <= role.h && a.pc.Asleep? && t in s.mem.handles[role.h].waiters)
  }

  lemma BlockedAgent(cfg: Config, s: State, g: Trail, t: nat, choice: nat)
    requires Inv(cfg, s, g) && t < |s.agents| && Step(cfg, s, Run(t, choice, false)) == s
    ensures Blocked(cfg, s, t)
  {
    var role, a := cfg.RoleOf(t), s.agents[t];
    assert AgentOk(cfg, s.mem, g, t, s.agents[t]);
    assert Step(cfg, s, Run(t, choice, false)).agents[t] == a;
    if role.h != NULL && !Blocked(cfg, s, t) {
      if HandingOver(a.pc) {
        HandOverMoves(cfg, s.mem, t, role.h, a);
      } else {
        OwnMoves(s.mem.handles[role.h], t, role, a, choice);
      }
    }
  }

  /** If no agent can move, every agent is blocked. */
  lemma StuckAgent(cfg: Config, s: State, g: Trail, t: nat)
    requires Inv(cfg, s, g) && AgentsStuck(cfg, s) && t < |s.agents|
    ensures Blocked(cfg, s, t)
  {
    BlockedAgent(cfg, s, g, t, 0);
  }

  lemma StuckReaper(cfg: Config, s: State, g: Trail)
    requires Inv(cfg, s, g) && Stuck(cfg, s)
    ensures var r := s.reaper;
      (r.pc.Off? && !s.mem.cloned) || (r.pc.CountAsleep? && s.mem.dozing) || (r.pc.QueueLock? && s.mem.locked)
  {
    assert ReaperStep(cfg, s.mem, s.reaper, false).r == s.reaper;
    ReaperRuns(cfg, s.mem, s.reaper, false);
  }

  /** If no agent can move, the queue lock is free or in the reaper's hands. */
  lemma StuckIsUnlocked(cfg: Config, s: State, g: Trail)
    requires Inv(cfg, s, g) && AgentsStuck(cfg, s)
    ensures s.mem.locked ==> ReaperHolds(s.reaper)
  {
    if s.mem.locked && !ReaperHolds(s.reaper) {
      var t := Charged(cfg, s, g, Holding);
      StuckAgent(cfg, s, g, t);
    }
  }

  /** Whoever sleeps on a handle sleeps for a thread that has not returned. */
  lemma SleeperHasWaker(cfg: Config, s: State, g: Trail, h: nat)
    requires Inv(cfg, s, g) && h < cfg.size && s.mem.handles[h].waiters != []
    ensures !s.agents[h].pc.Done?
  {
    assert WaitersOk(cfg, s.mem, s.agents, h) && AgentOk(cfg, s.mem, g, h, s.agents[h]);
  }

  /** If no agent can move and the lock is free, all have returned: a sleeping joiner waits for a thread
      that could go on. */
  lemma StuckIsOver(cfg: Config, s: State, g: Trail, t: nat)
    requires Inv(cfg, s, g) && AgentsStuck(cfg, s) && !s.mem.locked && t < |s.agents|
    ensures s.agents[t].pc.Done?
  {
    StuckAgent(cfg, s, g, t);
    if !s.agents[t].pc.Done? {
      var h := cfg.RoleOf(t).h;
      StuckAgent(cfg, s, g, h);
      SleeperHasWaker(cfg, s, g, h);
    }
  }

  /** Where every run ends: if nobody can move any more, every thread and every call has returned, the list
      is empty, and exactly the handles that were joined or detached have been freed, each once. */
  lemma EndsClean(cfg: Config, acts: seq<Action>)
    requires cfg.Valid() && Stuck(cfg, Exec(cfg, acts))
    ensures var s := Exec(cfg, acts);
      && (forall t :: 0 <= t < |s.agents| ==> s.agents[t].pc.Done?)
      && s.mem.head == NULL && s.mem.count == 0 && !s.mem.locked
      && forall h :: 0 <= h < cfg.size ==>
           var hd := s.mem.handles[h];
           hd.finished && hd.freed == if hd.word.joined || hd.word.detached then 1 else 0
  {
    Reachable(cfg, acts);
    var s, g := Exec(cfg, acts), History(cfg, acts);
    StuckIsUnlocked(cfg, s, g);
    StuckReaper(cfg, s, g);
    forall t | 0 <= t < |s.agents| ensures s.agents[t].pc.Done? { StuckIsOver(cfg, s, g, t); }
    NoLeak(cfg, acts);
    forall h | 0 <= h < cfg.size
      ensures var hd := s.mem.handles[h];
        hd.finished && hd.freed == if hd.word.joined || hd.word.detached then 1 else 0
    {
      EndsFreed(cfg, s, g, h);
    }
  }

  lemma EndsFreed(cfg: Config, s: State, g: Trail, h: nat)
    requires Inv(cfg, s, g) && h < cfg.size && forall t :: 0 <= t < |s.agents| ==> s.agents[t].pc.Done?
    requires s.mem.handles[h].word.detached && s.mem.handles[h].finished ==> s.mem.handles[h].freed == 1
    ensures var hd := s.mem.handles[h];
      hd.finished && hd.freed == if hd.word.joined || hd.word.detached then 1 else 0
  {
    assert AgentOk(cfg, s.mem, g, h, s.agents[h]);
    FreedOnce(cfg, s, g, h);
    if s.mem.handles[h].word.joined {
      var t := Charged(cfg, s, g, Joining(h));
      JoinedIsFreed(cfg, s, g, t, h);
    }
  }

  // ----- the reaper is one, and nothing crashes

  /** No agent and not the reaper ever follows a null pointer. */
  lemma {:induction false} NoFault(cfg: Config, acts: seq<Action>, t: nat)
    requires cfg.Valid() && t < cfg.Agents()
    ensures !Exec(cfg, acts).agents[t].pc.Crashed? && !Exec(cfg, acts).reaper.pc.Fault?
  {
    Reachable(cfg, acts);
    var s, g := Exec(cfg, acts), History(cfg, acts);
    assert AgentOk(cfg, s.mem, g, t, s.agents[t]);
    AgentRuns(cfg, s.mem, g, t, s.agents[t]);
  }

  lemma AgentRuns(cfg: Config, m: Memory, g: Trail, t: nat, a: Agent)
    requires cfg.Valid() && t < cfg.Agents() && |m.handles| == cfg.size && AgentOk(cfg, m, g, t, a)
    ensures !a.pc.Crashed?
  {
  }

  /** At most one agent, or else the reaper, is inside the queue lock. */
  lemma LockExcludes(cfg: Config, acts: seq<Action>, t: nat, u: nat)
    requires cfg.Valid() && t < cfg.Agents() && u < cfg.Agents() && t != u
    requires Critical(Exec(cfg, acts).agents[t].pc)
    ensures !Critical(Exec(cfg, acts).agents[u].pc) && !ReaperHolds(Exec(cfg, acts).reaper)
  {
    Reachable(cfg, acts);
    CriticalAlone(cfg, Exec(cfg, acts), History(cfg, acts), t);
  }

  /** `start_reaper` starts one reaper: an agent that is about to clone is the only one, and nobody has
      cloned before it. */
  lemma OneReaper(cfg: Config, acts: seq<Action>, t: nat, u: nat)
    requires cfg.Valid() && t < cfg.Agents() && u < cfg.Agents()
    requires Exec(cfg, acts).agents[t].pc.CloneReaper? && Exec(cfg, acts).agents[u].pc.CloneReaper?
    ensures t == u && !Exec(cfg, acts).mem.cloned && Exec(cfg, acts).reaper.pc.Off?
  {
    Reachable(cfg, acts);
    var s, g := Exec(cfg, acts), History(cfg, acts);
    Counted(cfg, s, g, Starting, t);
    OneWinner(cfg, s, g, Starting, t, u);
  }
}
