/** What decides each branch: the word a call has last read, the count found, the failures and wake-ups that
    come for no reason. */
module LifecycleMeaning {
  import opened Lifecycle
  import opened LifecycleInvariant
  import opened LifecycleSteps
  import opened LifecycleTheorems

  // ----- the bits of the word

  /** The masks MT_DETACHED, MT_JOINED, MT_REAPED and MT_QUEUED, 1 << 1 to 1 << 4, find the flags in the number. */
  lemma BitsRead(w: Word)
    ensures w.detached <==> Bits(w) / 2 % 2 == 1
    ensures w.joined <==> Bits(w) / 4 % 2 == 1
    ensures w.reaped <==> Bits(w) / 8 % 2 == 1
    ensures w.queued <==> Bits(w) / 16 % 2 == 1
    ensures Bits(w) % 2 == 0 && Bits(w) < 32
  {
  }

  // ----- the compare-exchanges of join and detach

  predicate AtExchange(pc: PC) {
    pc.TryJoin? || pc.TryDetach?
  }

  /** The word of its handle when call t read it last: by its first load, or by an exchange that failed. */
  ghost function LastRead(cfg: Config, acts: seq<Action>, t: nat): Word
    requires cfg.Valid() && t < cfg.Agents() && cfg.RoleOf(t).h != NULL
  {
    if acts == [] then CLEAR
    else
      var before, act := acts[..|acts| - 1], acts[|acts| - 1];
      var s := Exec(cfg, before);
      if act.Run? && act.t == t && (s.agents[t].pc.LoadWord? || AtExchange(s.agents[t].pc))
      then s.mem.handles[cfg.RoleOf(t).h].word
      else LastRead(cfg, before, t)
  }

  lemma ReadStep(hd: Handle, t: nat, role: Role, a: Agent, choice: nat, fails: bool)
    requires OwnOk(hd, role, a) && AtExchange(OwnStep(hd, t, role, a, choice, fails).a.pc)
    ensures (a.pc.LoadWord? || AtExchange(a.pc)) && OwnStep(hd, t, role, a, choice, fails).a.s == hd.word
  {
  }

  lemma HandingOverReadsNothing(cfg: Config, m: Memory, t: nat, h: nat, a: Agent, fails: bool)
    requires MemoryOk(cfg, m) && AgentInside(cfg, a) && t < cfg.Agents() && h < cfg.size && HandingOver(a.pc)
    ensures !AtExchange(HandOverStep(cfg, m, t, h, a, fails).a.pc)
  {
  }

  lemma StepReads(cfg: Config, s: State, g: Trail, act: Action, t: nat)
    requires Inv(cfg, s, g) && t < cfg.Agents() && cfg.RoleOf(t).h != NULL
    requires AtExchange(Step(cfg, s, act).agents[t].pc)
    ensures var a, a' := s.agents[t], Step(cfg, s, act).agents[t];
      if act.Run? && act.t == t && (a.pc.LoadWord? || AtExchange(a.pc))
      then a'.s == s.mem.handles[cfg.RoleOf(t).h].word
      else AtExchange(a.pc) && a'.s == a.s
  {
    if act.Run? && act.t == t {
      var a, h := s.agents[t], cfg.RoleOf(t).h;
      assert AgentInside(cfg, s.agents[t]);
      assert AgentOk(cfg, s.mem, g, t, s.agents[t]);
      if HandingOver(a.pc) {
        HandingOverReadsNothing(cfg, s.mem, t, h, a, act.fails);
      } else {
        ReadStep(s.mem.handles[h], t, cfg.RoleOf(t), a, act.choice, act.fails);
      }
    }
  }

  /** A call at its compare-exchange holds the word that it read last. */
  lemma {:induction false} HoldsLastRead(cfg: Config, acts: seq<Action>, t: nat)
    requires cfg.Valid() && t < cfg.Agents() && cfg.RoleOf(t).h != NULL
    ensures AtExchange(Exec(cfg, acts).agents[t].pc) ==> Exec(cfg, acts).agents[t].s == LastRead(cfg, acts, t)
  {
    if acts != [] {
      var before, act := acts[..|acts| - 1], acts[|acts| - 1];
      HoldsLastRead(cfg, before, t);
      Reachable(cfg, before);
      if AtExchange(Exec(cfg, acts).agents[t].pc) { StepReads(cfg, Exec(cfg, before), History(cfg, before), act, t); }
    }
  }

  /** Outside the hand-over a step is the agent's own, on its handle. */
  lemma OwnMove(cfg: Config, s: State, t: nat, choice: nat, fails: bool)
    requires WellFormed(cfg, s) && t < cfg.Agents() && cfg.RoleOf(t).h != NULL && !HandingOver(s.agents[t].pc)
    ensures var h, s' := cfg.RoleOf(t).h, Step(cfg, s, Run(t, choice, fails));
      var o := OwnStep(s.mem.handles[h], t, cfg.RoleOf(t), s.agents[t], choice, fails);
      && s'.mem.handles[h] == o.hd && s'.agents[t] == o.a
      && (o.hd == s.mem.handles[h] ==> s'.mem == s.mem)
  {
    var h := cfg.RoleOf(t).h;
    assert AgentInside(cfg, s.agents[t]);
    assert s.mem.handles[h := s.mem.handles[h]] == s.mem.handles;
  }

  /** A join at its exchange goes by the word it read last. If that shows a join or a detach it fails. Else it
      wins, and sets the joined bit and no other, exactly if the word is still the same; if not it tries again. */
  lemma JoinDecides(cfg: Config, acts: seq<Action>, t: nat, choice: nat, fails: bool)
    requires cfg.Valid() && t < cfg.Agents() && cfg.RoleOf(t).Joiner? && cfg.RoleOf(t).h != NULL
    requires Exec(cfg, acts).agents[t].pc.TryJoin?
    ensures var h, w := cfg.RoleOf(t).h, LastRead(cfg, acts, t);
      var s, s' := Exec(cfg, acts), Step(cfg, Exec(cfg, acts), Run(t, choice, fails));
      var now := s.mem.handles[h];
      if w.detached || w.joined then
        s'.mem == s.mem && s'.agents[t].pc.Done? && s'.agents[t].outcome.Invalid?
      else if now.word == w then
        s'.mem.handles[h] == now.(word := w.(joined := true)) && s'.agents[t].pc.CheckFinished?
      else
        s'.mem == s.mem && s'.agents[t].pc.TryJoin?
  {
    HoldsLastRead(cfg, acts, t);
    OwnMove(cfg, Exec(cfg, acts), t, choice, fails);
  }

  /** A detach likewise; a second detach returns 0, and the exchange may also fail for no reason. */
  lemma DetachDecides(cfg: Config, acts: seq<Action>, t: nat, choice: nat, fails: bool)
    requires cfg.Valid() && t < cfg.Agents() && cfg.RoleOf(t).Detacher? && cfg.RoleOf(t).h != NULL
    requires Exec(cfg, acts).agents[t].pc.TryDetach?
    ensures var h, w := cfg.RoleOf(t).h, LastRead(cfg, acts, t);
      var s, s' := Exec(cfg, acts), Step(cfg, Exec(cfg, acts), Run(t, choice, fails));
      var now := s.mem.handles[h];
      if w.detached then
        s'.mem == s.mem && s'.agents[t].pc.Done? && s'.agents[t].outcome.AlreadyDetached?
      else if w.joined then
        s'.mem == s.mem && s'.agents[t].pc.Done? && s'.agents[t].outcome.Invalid?
      else if now.word == w && !fails then
        s'.mem.handles[h] == now.(word := w.(detached := true)) && s'.agents[t].pc.LoadFinished?
      else
        s'.mem == s.mem && s'.agents[t].pc.TryDetach?
  {
    HoldsLastRead(cfg, acts, t);
    OwnMove(cfg, Exec(cfg, acts), t, choice, fails);
  }

  // ----- who hands over, who sleeps, who frees

  lemma OwnTurns(hd: Handle, t: nat, role: Role, a: Agent, choice: nat, fails: bool)
    ensures var o := OwnStep(hd, t, role, a, choice, fails);
      && (role.Exiter? && a.pc.LoadState? ==> o.hd == hd && o.a.pc == if hd.word.detached then MarkQueued else Done)
      && (role.Detacher? && a.pc.LoadFinished? ==> o.hd == hd && o.a.pc == if hd.finished then MarkQueued else Done)
      && (!role.Joiner? && a.pc.MarkQueued? ==>
            o.hd == hd.(word := hd.word.(queued := true)) && o.a.pc == if hd.word.queued then Done else StartReaper)
  {
  }

  /** An exit turns to the hand-over exactly if it finds its handle detached, a detach exactly if it finds the
      thread finished; each then sets MT_QUEUED, and goes through with it exactly if the bit was not set. */
  lemma HandOverDecides(cfg: Config, acts: seq<Action>, t: nat, choice: nat, fails: bool)
    requires cfg.Valid() && t < cfg.Agents() && cfg.RoleOf(t).h != NULL && !HandingOver(Exec(cfg, acts).agents[t].pc)
    ensures var s, s' := Exec(cfg, acts), Step(cfg, Exec(cfg, acts), Run(t, choice, fails));
      var role, a, a' := cfg.RoleOf(t), s.agents[t], s'.agents[t];
      var hd, hd' := s.mem.handles[role.h], s'.mem.handles[role.h];
      && (role.Exiter? && a.pc.LoadState? ==>
            s'.mem == s.mem && a'.pc == if hd.word.detached then MarkQueued else Done)
      && (role.Detacher? && a.pc.LoadFinished? ==>
            s'.mem == s.mem && a'.pc == if hd.finished then MarkQueued else Done)
      && (!role.Joiner? && a.pc.MarkQueued? ==>
            hd' == hd.(word := hd.word.(queued := true)) && a'.pc == if hd.word.queued then Done else StartReaper)
  {
    var s := Exec(cfg, acts);
    OwnMove(cfg, s, t, choice, fails);
    OwnTurns(s.mem.handles[cfg.RoleOf(t).h], t, cfg.RoleOf(t), s.agents[t], choice, fails);
  }

  lemma JoinTurns(hd: Handle, t: nat, wants: bool, a: Agent)
    ensures var o := JoinStep(hd, t, wants, a);
      && (a.pc.CheckFinished? ==> o.hd == hd && o.a.pc == if hd.finished then ReadValue else Wait)
      && (a.pc.Wait? && hd.finished ==> o.hd == hd && o.a.pc.CheckFinished?)
      && (a.pc.Wait? && !hd.finished ==> o.hd == hd.(waiters := hd.waiters + [t]) && o.a.pc.Asleep?)
      && (a.pc.MarkReaped? ==>
            o.hd == hd.(word := hd.word.(reaped := true)) && o.a.pc == if hd.word.reaped then Done else FreeHandle)
      && (a.pc.FreeHandle? ==> o.hd == hd.(freed := hd.freed + 1) && o.a.pc.Done?)
  {
  }

  /** A join goes on exactly if it finds the thread finished, and falls asleep exactly if it is still running in
      the futex call; at the end it sets MT_REAPED, and frees the handle exactly if the bit was not set. */
  lemma WaitDecides(cfg: Config, acts: seq<Action>, t: nat, choice: nat, fails: bool)
    requires cfg.Valid() && t < cfg.Agents() && cfg.RoleOf(t).h != NULL && cfg.RoleOf(t).Joiner?
    requires !HandingOver(Exec(cfg, acts).agents[t].pc)
    ensures var s, s' := Exec(cfg, acts), Step(cfg, Exec(cfg, acts), Run(t, choice, fails));
      var a, a', hd, hd' := s.agents[t], s'.agents[t], s.mem.handles[cfg.RoleOf(t).h], s'.mem.handles[cfg.RoleOf(t).h];
      && (a.pc.CheckFinished? ==> s'.mem == s.mem && a'.pc == if hd.finished then ReadValue else Wait)
      && (a.pc.Wait? && hd.finished ==> s'.mem == s.mem && a'.pc.CheckFinished?)
      && (a.pc.Wait? && !hd.finished ==> hd' == hd.(waiters := hd.waiters + [t]) && a'.pc.Asleep?)
      && (a.pc.MarkReaped? ==>
            hd' == hd.(word := hd.word.(reaped := true)) && a'.pc == if hd.word.reaped then Done else FreeHandle)
      && (a.pc.FreeHandle? ==> hd' == hd.(freed := hd.freed + 1) && a'.pc.Done?)
  {
    var s := Exec(cfg, acts);
    OwnMove(cfg, s, t, choice, fails);
    JoinTurns(s.mem.handles[cfg.RoleOf(t).h], t, cfg.RoleOf(t).wants, s.agents[t]);
  }

  // ----- the count

  /** An enqueuer asks for a wake-up exactly if it found the count 0; else it has nothing left to do. */
  lemma WakesAtZero(cfg: Config, acts: seq<Action>, t: nat, choice: nat, fails: bool)
    requires cfg.Valid() && t < cfg.Agents() && Exec(cfg, acts).agents[t].pc.AddCount?
    ensures var s, s' := Exec(cfg, acts), Step(cfg, Exec(cfg, acts), Run(t, choice, fails));
      && s'.mem == s.mem.(count := s.mem.count + 1)
      && (s'.agents[t].pc.WakeReaper? <==> s.mem.count == 0)
      && (s'.agents[t].pc.Done? <==> s.mem.count != 0)
  {
    Reachable(cfg, acts);
    var s, g := Exec(cfg, acts), History(cfg, acts);
    assert AgentOk(cfg, s.mem, g, t, s.agents[t]);
  }

  /** The reaper turns to the queue exactly if it finds the count other than 0, even below it, and falls asleep
      exactly if the count is still 0 in the futex call. If it finds the list empty it looks at the count again. */
  lemma SleepsAtZero(cfg: Config, acts: seq<Action>, fails: bool)
    requires cfg.Valid()
    ensures var s, s' := Exec(cfg, acts), Step(cfg, Exec(cfg, acts), Reap(fails));
      var r, r' := s.reaper, s'.reaper;
      && (r.pc.CountLoad? ==> s'.mem == s.mem && r'.pc == if s.mem.count != 0 then QueueLock else CountWait)
      && (r.pc.CountWait? && s.mem.count == 0 ==> s'.mem.dozing && r'.pc.CountAsleep?)
      && (r.pc.CountWait? && s.mem.count != 0 ==> s'.mem == s.mem && r'.pc.CountLoad?)
      && (r.pc.HeadRead? ==> s'.mem == s.mem && r'.cur == s.mem.head
                             && r'.pc == if s.mem.head != NULL then HeadClear else QueueUnlock)
      && (r.pc.QueueUnlock? ==> !s'.mem.locked && r'.pc == if r.cur != NULL then NodeRead else CountLoad)
  {
  }

  // ----- what comes for no reason

  /** A weak exchange that fails for no reason, of a detach or of the queue lock, leaves everything as it was
      but for the word last read, and the agent tries again. */
  lemma FailureChangesNothing(cfg: Config, acts: seq<Action>, t: nat, choice: nat)
    requires cfg.Valid() && t < cfg.Agents()
    requires var a := Exec(cfg, acts).agents[t];
      a.pc.Lock? || (cfg.RoleOf(t).h != NULL && a.pc.TryDetach? && !a.s.detached && !a.s.joined)
    ensures var s, s' := Exec(cfg, acts), Step(cfg, Exec(cfg, acts), Run(t, choice, true));
      s'.mem == s.mem && s'.reaper == s.reaper && s'.agents == s.agents[t := s'.agents[t]]
      && s'.agents[t].pc == s.agents[t].pc
  {
    Reachable(cfg, acts);
    var s, g := Exec(cfg, acts), History(cfg, acts);
    assert AgentOk(cfg, s.mem, g, t, s.agents[t]);
    var h := cfg.RoleOf(t).h;
    assert h != NULL ==> s.mem.handles[h := s.mem.handles[h]] == s.mem.handles;
  }

  lemma ReaperFailureChangesNothing(cfg: Config, acts: seq<Action>)
    requires cfg.Valid() && Exec(cfg, acts).reaper.pc.QueueLock?
    ensures Step(cfg, Exec(cfg, acts), Reap(true)) == Exec(cfg, acts)
  {
  }

  /** A joiner roused for no reason looks at `finished` again. */
  lemma RousedLooksAgain(cfg: Config, acts: seq<Action>, t: nat, k: nat)
    requires cfg.Valid() && t < cfg.Agents() && Exec(cfg, acts).agents[t].pc.Asleep?
    ensures var s, h := Exec(cfg, acts), cfg.RoleOf(t).h;
      && cfg.RoleOf(t).Joiner? && 0 <= h
      && var roused := Step(cfg, s, Rouse(h, k));
         && roused.mem.handles[h] == s.mem.handles[h].(waiters := [])
         && Step(cfg, roused, Run(t, 0, false)).agents[t].pc.CheckFinished?
  {
    Reachable(cfg, acts);
    var s, g := Exec(cfg, acts), History(cfg, acts);
    assert AgentOk(cfg, s.mem, g, t, s.agents[t]);
    assert WaitersOk(cfg, s.mem, s.agents, cfg.RoleOf(t).h);
    WakesUp(cfg, Step(cfg, s, Rouse(cfg.RoleOf(t).h, k)), t);
  }

  lemma WakesUp(cfg: Config, s: State, t: nat)
    requires WellFormed(cfg, s) && t < cfg.Agents() && s.agents[t].pc.Asleep?
    requires cfg.RoleOf(t).Joiner? && cfg.RoleOf(t).h != NULL && t !in s.mem.handles[cfg.RoleOf(t).h].waiters
    ensures Step(cfg, s, Run(t, 0, false)).agents[t].pc.CheckFinished?
  {
  }

  /** The reaper, roused, looks at the count again. */
  lemma RousedReaperLooksAgain(cfg: Config, acts: seq<Action>)
    requires cfg.Valid() && Exec(cfg, acts).reaper.pc.CountAsleep?
    ensures var s1 := Step(cfg, Exec(cfg, acts), RouseReaper);
      Step(cfg, s1, Reap(false)).reaper.pc.CountLoad?
  {
  }
}
