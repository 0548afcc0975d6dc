/** Every step of every agent and of the reaper keeps the invariant. */
module LifecycleSteps {
  import opened Sums
  import opened Lifecycle
  import opened LifecycleInvariant

  // ----- who is alone

  lemma CriticalAlone(cfg: Config, s: State, g: Trail, t: nat)
    requires cfg.Valid() && |s.agents| == cfg.Agents() && Ledger(cfg, s, g)
    requires t < |s.agents| && Critical(s.agents[t].pc)
    ensures s.mem.locked && !ReaperHolds(s.reaper)
    ensures forall u :: 0 <= u < |s.agents| && u != t ==> !Critical(s.agents[u].pc)
  {
    Counted(cfg, s, g, Holding, t);
    forall u | 0 <= u < |s.agents| && u != t
      ensures !Critical(s.agents[u].pc)
    {
      assert Weight(Holding, cfg.RoleOf(t), s.agents[t]) + Weight(Holding, cfg.RoleOf(u), s.agents[u]) <= 1;
    }
  }

  lemma ReaperAlone(cfg: Config, s: State, g: Trail, u: nat)
    requires cfg.Valid() && |s.agents| == cfg.Agents() && Ledger(cfg, s, g)
    requires ReaperHolds(s.reaper) && u < |s.agents|
    ensures s.mem.locked && !Critical(s.agents[u].pc)
  {
    Counted(cfg, s, g, Holding, u);
  }

  lemma InTrail(hs: seq<nat>, i: nat)
    requires i < |hs|
    ensures 0 < multiset(hs)[hs[i]]
  {
    assert hs[i] in multiset(hs);
  }

  /** A handle that is still being carried to the queue is marked, and is nowhere in the trail. */
  lemma CarriedIsNew(cfg: Config, s: State, g: Trail, t: nat, h: nat)
    requires cfg.Valid() && |s.agents| == cfg.Agents() && Ledger(cfg, s, g) && |s.mem.handles| == cfg.size
    requires t < |s.agents| && Unlinked(s.agents[t].pc) && cfg.RoleOf(t).h == h < cfg.size
    ensures s.mem.handles[h].word.queued && multiset(g.handles)[h] == 0
    ensures TrailOk(cfg, g) ==> t !in g.ids
  {
    Counted(cfg, s, g, Carrying(h), t);
    if TrailOk(cfg, g) && t in g.ids {
      var i :| 0 <= i < |g.ids| && g.ids[i] == t;
      InTrail(g.handles, i);
    }
  }

  /** A linked handle has its mark. */
  lemma LinkedIsQueued(cfg: Config, s: State, g: Trail, i: nat)
    requires cfg.Valid() && |s.agents| == cfg.Agents() && Ledger(cfg, s, g) && |s.mem.handles| == cfg.size
    requires i < |g.handles| && g.handles[i] < cfg.size
    ensures s.mem.handles[g.handles[i]].word.queued
  {
    BookNonNegative(cfg, s, g, Carrying(g.handles[i]));
    InTrail(g.handles, i);
  }

  // ----- what a step can change of a handle

  predicate HandleLater(hd: Handle, hd': Handle, other: bool) {
    && (hd.finished ==> hd'.finished && hd'.retval == hd.retval)
    && (hd.word.detached ==> hd'.word.detached)
    && (hd.word.joined ==> hd'.word.joined)
    && (hd.word.queued ==> hd'.word.queued)
    && (hd.word.reaped ==> hd'.word.reaped)
    && (other ==> hd'.finished == hd.finished && hd'.retval == hd.retval)
  }

  /** Words only gain bits, and only the thread of a handle finishes it. */
  ghost predicate Later(m: Memory, m': Memory, t: int) {
    && |m'.handles| == |m.handles| && |m'.nodes| == |m.nodes|
    && (m.started ==> m'.started) && (m.cloned ==> m'.cloned)
    && forall h {:trigger m'.handles[h]} :: 0 <= h < |m.handles| ==> HandleLater(m.handles[h], m'.handles[h], h != t)
  }

  lemma SetHandleLater(m: Memory, h: int, hd: Handle, t: int)
    requires 0 <= h < |m.handles| && HandleLater(m.handles[h], hd, h != t)
    ensures Later(m, SetHandle(m, h, hd), t)
  {
  }

  lemma OwnLater(hd: Handle, t: nat, role: Role, a: Agent, choice: nat, fails: bool)
    requires OwnOk(hd, role, a)
    ensures HandleLater(hd, OwnStep(hd, t, role, a, choice, fails).hd, !role.Exiter?)
  {
  }

  lemma HandOverLater(cfg: Config, m: Memory, t: nat, h: nat, a: Agent, fails: bool)
    requires MemoryOk(cfg, m) && AgentInside(cfg, a) && t < cfg.Agents() && h < cfg.size
    ensures Later(m, HandOverStep(cfg, m, t, h, a, fails).mem, t)
  {
  }

  lemma AgentLater(cfg: Config, m: Memory, g: Trail, t: nat, a: Agent, choice: nat, fails: bool)
    requires MemoryOk(cfg, m) && AgentInside(cfg, a) && t < cfg.Agents() && AgentOk(cfg, m, g, t, a)
    ensures Later(m, AgentStep(cfg, m, t, a, choice, fails).mem, t)
  {
    var role := cfg.RoleOf(t);
    if role.h != NULL {
      if HandingOver(a.pc) {
        HandOverLater(cfg, m, t, role.h, a, fails);
      } else {
        var hd := m.handles[role.h];
        OwnLater(hd, t, role, a, choice, fails);
        SetHandleLater(m, role.h, OwnStep(hd, t, role, a, choice, fails).hd, t);
      }
    }
  }

  lemma WalkLater(cfg: Config, m: Memory, r: Reaper)
    requires MemoryOk(cfg, m) && ReaperInside(cfg, r)
    ensures Later(m, WalkStep(cfg, m, r).mem, NULL)
  {
    if 0 <= r.thread { SetHandleLater(m, r.thread, ReapStep(m.handles[r.thread], r.pc), NULL); }
  }

  lemma DequeueLater(cfg: Config, m: Memory, r: Reaper, fails: bool)
    requires MemoryOk(cfg, m) && ReaperInside(cfg, r)
    ensures Later(m, DequeueStep(cfg, m, r, fails).mem, NULL)
  {
  }

  lemma ReaperLater(cfg: Config, m: Memory, r: Reaper, fails: bool)
    requires MemoryOk(cfg, m) && ReaperInside(cfg, r)
    ensures Later(m, ReaperStep(cfg, m, r, fails).mem, NULL)
  {
    ReaperRuns(cfg, m, r, fails);
    if Walking(r) { WalkLater(cfg, m, r); } else if Dequeuing(r) { DequeueLater(cfg, m, r, fails); }
  }

  // ----- words

  lemma OwnKeepsHandle(hd: Handle, t: nat, role: Role, a: Agent, choice: nat, fails: bool)
    requires HandleOk(hd) && OwnOk(hd, role, a) && (role.Joiner? && JoinWon(a) ==> hd.word.joined)
    ensures HandleOk(OwnStep(hd, t, role, a, choice, fails).hd)
  {
  }

  lemma SetHandleKeepsOk(m: Memory, h: int, hd: Handle)
    requires HandlesOk(m) && 0 <= h < |m.handles| && HandleOk(hd)
    ensures HandlesOk(SetHandle(m, h, hd))
  {
  }

  lemma HandOverKeepsHandles(cfg: Config, m: Memory, t: nat, h: nat, a: Agent, fails: bool)
    requires MemoryOk(cfg, m) && AgentInside(cfg, a) && t < cfg.Agents() && h < cfg.size
    ensures var o := HandOverStep(cfg, m, t, h, a, fails); o.mem.handles == m.handles && o.a.val == a.val
  {
  }

  lemma AgentKeepsHandles(cfg: Config, s: State, g: Trail, t: nat, choice: nat, fails: bool)
    requires WellFormed(cfg, s) && Ledger(cfg, s, g) && HandlesOk(s.mem) && t < |s.agents|
    requires AgentOk(cfg, s.mem, g, t, s.agents[t])
    ensures HandlesOk(AgentStep(cfg, s.mem, t, s.agents[t], choice, fails).mem)
  {
    var role, m, a := cfg.RoleOf(t), s.mem, s.agents[t];
    if role.h != NULL {
      if HandingOver(a.pc) {
        HandOverKeepsHandles(cfg, m, t, role.h, a, fails);
      } else {
        var hd := m.handles[role.h];
        assert HandleOk(m.handles[role.h]);
        Counted(cfg, s, g, Joining(role.h), t);
        OwnKeepsHandle(hd, t, role, a, choice, fails);
        SetHandleKeepsOk(m, role.h, OwnStep(hd, t, role, a, choice, fails).hd);
      }
    }
  }

  lemma ReaperKeepsHandles(cfg: Config, s: State, g: Trail, fails: bool)
    requires WellFormed(cfg, s) && Ledger(cfg, s, g) && HandlesOk(s.mem) && TrailOk(cfg, g)
    requires ReaperOk(s.mem, s.reaper, g)
    ensures HandlesOk(ReaperStep(cfg, s.mem, s.reaper, fails).mem)
  {
    var r := s.reaper;
    if r.pc.ReapMark? {
      LinkedIsQueued(cfg, s, g, g.done);
      assert HandleOk(s.mem.handles[r.thread]);
    } else if r.pc.HandleFree? {
      assert HandleOk(s.mem.handles[r.thread]);
    }
  }

  // ----- the agent that moves

  lemma OwnStaysOk(hd: Handle, t: nat, role: Role, a: Agent, choice: nat, fails: bool)
    requires OwnOk(hd, role, a) && !HandingOver(a.pc)
    ensures var o := OwnStep(hd, t, role, a, choice, fails); OwnOk(o.hd, role, o.a)
    ensures var o := OwnStep(hd, t, role, a, choice, fails); HandingOver(o.a.pc) ==> o.a.pc.StartReaper?
  {
  }

  lemma LinkerStaysOk(cfg: Config, m: Memory, g: Trail, t: nat, h: nat, a: Agent, fails: bool)
    requires MemoryOk(cfg, m) && AgentInside(cfg, a) && t < cfg.Agents() && h < cfg.size
    requires QueueOk(cfg, m, g) && HandOverOk(m, g, t, h, a) && Critical(a.pc) && Unlinked(a.pc)
    ensures var o, g' := HandOverStep(cfg, m, t, h, a, fails), AgentTrail(g, t, h, a);
      HandOverOk(o.mem, g', t, h, o.a) && HandingOver(o.a.pc)
  {
  }

  lemma EnqueuerStaysOk(cfg: Config, m: Memory, g: Trail, t: nat, h: nat, a: Agent, fails: bool)
    requires MemoryOk(cfg, m) && AgentInside(cfg, a) && t < cfg.Agents() && h < cfg.size
    requires QueueOk(cfg, m, g) && HandOverOk(m, g, t, h, a)
    requires HandingOver(a.pc) && !(Critical(a.pc) && Unlinked(a.pc))
    ensures var o := HandOverStep(cfg, m, t, h, a, fails);
      if HandingOver(o.a.pc) then HandOverOk(o.mem, g, t, h, o.a) else o.a.pc.Done? && o.a.outcome.Success?
  {
  }

  lemma HandOverStaysOk(cfg: Config, m: Memory, g: Trail, t: nat, h: nat, a: Agent, fails: bool)
    requires MemoryOk(cfg, m) && AgentInside(cfg, a) && t < cfg.Agents() && h < cfg.size
    requires QueueOk(cfg, m, g) && HandOverOk(m, g, t, h, a) && HandingOver(a.pc)
    ensures var o, g' := HandOverStep(cfg, m, t, h, a, fails), AgentTrail(g, t, h, a);
      if HandingOver(o.a.pc) then HandOverOk(o.mem, g', t, h, o.a) else o.a.pc.Done? && o.a.outcome.Success?
  {
    if Critical(a.pc) && Unlinked(a.pc) {
      LinkerStaysOk(cfg, m, g, t, h, a, fails);
    } else {
      EnqueuerStaysOk(cfg, m, g, t, h, a, fails);
    }
  }

  /** On the way through the hand-over an agent's handle stays as it is. */
  lemma HandingOverStaysOwn(hd: Handle, role: Role, a: Agent, a': Agent)
    requires OwnOk(hd, role, a) && HandingOver(a.pc) && a'.val == a.val
    requires HandingOver(a'.pc) || (a'.pc.Done? && a'.outcome.Success?)
    ensures OwnOk(hd, role, a') && !role.Joiner?
  {
  }

  lemma AgentStaysOk(cfg: Config, m: Memory, g: Trail, t: nat, a: Agent, choice: nat, fails: bool)
    requires MemoryOk(cfg, m) && AgentInside(cfg, a) && t < cfg.Agents()
    requires QueueOk(cfg, m, g) && AgentOk(cfg, m, g, t, a)
    ensures var o, g' := AgentStep(cfg, m, t, a, choice, fails), AgentTrail(g, t, cfg.RoleOf(t).h, a);
      AgentOk(cfg, o.mem, g', t, o.a)
  {
    var role := cfg.RoleOf(t);
    if role.h != NULL {
      var hd := m.handles[role.h];
      if HandingOver(a.pc) {
        HandOverStaysOk(cfg, m, g, t, role.h, a, fails);
        HandOverKeepsHandles(cfg, m, t, role.h, a, fails);
        HandingOverStaysOwn(hd, role, a, HandOverStep(cfg, m, t, role.h, a, fails).a);
      } else {
        OwnStaysOk(hd, t, role, a, choice, fails);
      }
    }
  }

  // ----- the agents that do not

  /** Nothing of what agent u relies on has moved. */
  ghost predicate SameQueue(m: Memory, m': Memory, g: Trail, g': Trail, u: nat, a: Agent) {
    && |m.nodes| == |m'.nodes|
    && (Critical(a.pc) ==> m'.tail == m.tail && g'.ids == g.ids && g'.taken == g.taken)
    && (Unlinked(a.pc) && u < |m.nodes| ==> m'.nodes[u] == m.nodes[u])
  }

  lemma HandOverFrame(m: Memory, m': Memory, g: Trail, g': Trail, u: nat, h: nat, a: Agent)
    requires HandOverOk(m, g, u, h, a) && (m.started ==> m'.started) && SameQueue(m, m', g, g', u, a)
    ensures HandOverOk(m', g', u, h, a)
  {
  }

  lemma OwnFrame(hd: Handle, hd': Handle, role: Role, a: Agent)
    requires OwnOk(hd, role, a) && HandleLater(hd, hd', role.Exiter?)
    ensures OwnOk(hd', role, a)
  {
  }

  lemma OtherStaysOk(cfg: Config, m: Memory, m': Memory, g: Trail, g': Trail, t: int, u: nat, a: Agent)
    requires cfg.Valid() && |m.handles| == cfg.size && u < cfg.Agents() && u != t
    requires AgentOk(cfg, m, g, u, a) && Later(m, m', t) && SameQueue(m, m', g, g', u, a)
    ensures AgentOk(cfg, m', g', u, a)
  {
    var role := cfg.RoleOf(u);
    if role.h != NULL {
      OwnFrame(m.handles[role.h], m'.handles[role.h], role, a);
      if HandingOver(a.pc) { HandOverFrame(m, m', g, g', u, role.h, a); }
    }
  }

  /** What a handing-over step writes: the queue only inside the lock, and nodes only its own and the last. */
  lemma HandOverTouches(cfg: Config, m: Memory, g: Trail, t: nat, h: nat, a: Agent, fails: bool)
    requires MemoryOk(cfg, m) && AgentInside(cfg, a) && t < cfg.Agents() && h < cfg.size
    ensures var o, g' := HandOverStep(cfg, m, t, h, a, fails), AgentTrail(g, t, h, a);
      && (!Critical(a.pc) ==> o.mem.tail == m.tail && g' == g)
      && |o.mem.nodes| == |m.nodes|
      && forall u :: 0 <= u < |m.nodes| && u != t && !(a.pc.LinkOld? && a.oldTail == u) ==> o.mem.nodes[u] == m.nodes[u]
  {
  }

  lemma AgentTouches(cfg: Config, m: Memory, g: Trail, t: nat, a: Agent, choice: nat, fails: bool)
    requires MemoryOk(cfg, m) && AgentInside(cfg, a) && t < cfg.Agents()
    ensures var o, g' := AgentStep(cfg, m, t, a, choice, fails), AgentTrail(g, t, cfg.RoleOf(t).h, a);
      && (!Critical(a.pc) ==> o.mem.tail == m.tail && g' == g)
      && |o.mem.nodes| == |m.nodes|
      && forall u :: 0 <= u < |m.nodes| && u != t && !(a.pc.LinkOld? && a.oldTail == u) ==> o.mem.nodes[u] == m.nodes[u]
  {
    if cfg.RoleOf(t).h != NULL && HandingOver(a.pc) { HandOverTouches(cfg, m, g, t, cfg.RoleOf(t).h, a, fails); }
  }

  lemma OthersStayOk(cfg: Config, s: State, g: Trail, t: nat, choice: nat, fails: bool, u: nat)
    requires Inv(cfg, s, g) && t < |s.agents| && u < |s.agents| && u != t
    ensures var o, g' := AgentStep(cfg, s.mem, t, s.agents[t], choice, fails),
                         AgentTrail(g, t, cfg.RoleOf(t).h, s.agents[t]);
      AgentOk(cfg, o.mem, g', u, s.agents[u])
  {
    var a, b := s.agents[t], s.agents[u];
    var o, g' := AgentStep(cfg, s.mem, t, a, choice, fails), AgentTrail(g, t, cfg.RoleOf(t).h, a);
    assert AgentOk(cfg, s.mem, g, t, s.agents[t]) && AgentOk(cfg, s.mem, g, u, s.agents[u]);
    AgentLater(cfg, s.mem, g, t, a, choice, fails);
    AgentTouches(cfg, s.mem, g, t, a, choice, fails);
    if Critical(b.pc) { CriticalAlone(cfg, s, g, u); }
    if Unlinked(b.pc) && a.pc.LinkOld? { LinksToOther(cfg, s, g, t, u); }
    OtherStaysOk(cfg, s.mem, o.mem, g, g', t, u, b);
  }

  lemma HandsOver(cfg: Config, m: Memory, g: Trail, t: nat, a: Agent)
    requires cfg.Valid() && |m.handles| == cfg.size && t < cfg.Agents() && AgentOk(cfg, m, g, t, a) && HandingOver(a.pc)
    ensures cfg.RoleOf(t).h != NULL && !cfg.RoleOf(t).Joiner? && HandOverOk(m, g, t, cfg.RoleOf(t).h, a)
  {
  }

  /** The old tail is a linked node, so it is not the node of an agent that has still to link. */
  lemma LinksToOther(cfg: Config, s: State, g: Trail, t: nat, u: nat)
    requires Inv(cfg, s, g) && t < |s.agents| && u < |s.agents| && s.agents[t].pc.LinkOld? && Unlinked(s.agents[u].pc)
    ensures s.agents[t].oldTail != u
  {
    assert AgentOk(cfg, s.mem, g, t, s.agents[t]) && AgentOk(cfg, s.mem, g, u, s.agents[u]);
    HandsOver(cfg, s.mem, g, t, s.agents[t]);
    HandsOver(cfg, s.mem, g, u, s.agents[u]);
    CarriedIsNew(cfg, s, g, u, cfg.RoleOf(u).h);
  }

  // ----- the queue under an agent's step

  /** The trail with one more node linked. */
  function Linked(g: Trail, t: nat, h: nat): Trail {
    g.(ids := g.ids + [t], handles := g.handles + [h])
  }

  lemma LinkKeepsTrail(cfg: Config, g: Trail, t: nat, h: nat)
    requires cfg.Valid() && TrailOk(cfg, g) && t < cfg.Agents() && cfg.RoleOf(t).h == h < cfg.size
    ensures TrailOk(cfg, Linked(g, t, h))
  {
  }

  lemma WriteHeadKeepsQueue(cfg: Config, m: Memory, g: Trail, t: nat, h: nat)
    requires MemoryOk(cfg, m) && QueueOk(cfg, m, g) && t < cfg.Agents() && cfg.RoleOf(t).h == h < cfg.size
    requires m.locked && m.started && g.taken == |g.ids|
    requires m.nodes[t].thread == h && m.nodes[t].next == NULL
    ensures QueueOk(cfg, m.(head := t), Linked(g, t, h))
  {
    var m', g' := m.(head := t), Linked(g, t, h);
    LinkKeepsTrail(cfg, g, t, h);
    forall i | 0 <= i < |g'.ids| ensures NodeOk(m', g', i) { if i < |g.ids| { assert NodeOk(m, g, i); } }
  }

  lemma LinkedNode(m: Memory, g: Trail, t: nat, h: nat, i: nat)
    requires |g.ids| == |g.handles| && i < |g.ids| && g.ids[i] < |m.nodes| && NodeOk(m, g, i)
    requires g.taken < |g.ids| && g.ids[|g.ids| - 1] < |m.nodes|
    requires g.ids[i] == g.ids[|g.ids| - 1] ==> i == |g.ids| - 1
    ensures var last := g.ids[|g.ids| - 1];
      NodeOk(m.(nodes := m.nodes[last := m.nodes[last].(next := t)]), Linked(g, t, h), i)
  {
  }

  lemma LinkOldKeepsQueue(cfg: Config, m: Memory, g: Trail, t: nat, h: nat)
    requires MemoryOk(cfg, m) && QueueOk(cfg, m, g) && t < cfg.Agents() && cfg.RoleOf(t).h == h < cfg.size
    requires m.locked && m.started && TailOk(m, g) && m.tail != NULL && t !in g.ids
    requires forall i, j :: 0 <= i < j < |g.ids| ==> g.ids[i] != g.ids[j]
    requires m.nodes[t].thread == h && m.nodes[t].next == NULL
    ensures QueueOk(cfg, m.(nodes := m.nodes[m.tail := m.nodes[m.tail].(next := t)]), Linked(g, t, h))
  {
    var m', g' := m.(nodes := m.nodes[m.tail := m.nodes[m.tail].(next := t)]), Linked(g, t, h);
    LinkKeepsTrail(cfg, g, t, h);
    forall i | 0 <= i < |g'.ids|
      ensures NodeOk(m', g', i)
    {
      if i < |g.ids| {
        assert NodeOk(m, g, i);
        LinkedNode(m, g, t, h, i);
      }
    }
  }

  /** A node that is not in the trail may be written. */
  lemma AllocKeepsQueue(cfg: Config, m: Memory, g: Trail, t: nat, h: nat)
    requires MemoryOk(cfg, m) && QueueOk(cfg, m, g) && t < cfg.Agents() && h < cfg.size && t !in g.ids
    ensures QueueOk(cfg, m.(nodes := m.nodes[t := Node(h, NULL, 0)]), g)
  {
    var m' := m.(nodes := m.nodes[t := Node(h, NULL, 0)]);
    forall i | 0 <= i < |g.ids| ensures NodeOk(m', g, i) { assert NodeOk(m, g, i) && g.ids[i] != t; }
  }

  /** Every handle is linked at most once, so no node is linked twice. */
  lemma NodesDiffer(cfg: Config, s: State, g: Trail)
    requires cfg.Valid() && |s.agents| == cfg.Agents() && Ledger(cfg, s, g) && |s.mem.handles| == cfg.size
    requires TrailOk(cfg, g)
    ensures forall i, j :: 0 <= i < j < |g.ids| ==> g.ids[i] != g.ids[j] && g.handles[i] != g.handles[j]
  {
    forall i, j | 0 <= i < j < |g.ids|
      ensures g.ids[i] != g.ids[j] && g.handles[i] != g.handles[j]
    {
      if g.handles[i] == g.handles[j] {
        BookNonNegative(cfg, s, g, Carrying(g.handles[i]));
        Twice(g.handles, i, j);
      }
    }
  }

  lemma Twice(hs: seq<nat>, i: nat, j: nat)
    requires i < j < |hs| && hs[i] == hs[j]
    ensures 2 <= multiset(hs)[hs[i]]
  {
    assert hs == hs[..j] + hs[j..];
    InTrail(hs[..j], i);
    InTrail(hs[j..], 0);
  }

  lemma QuietKeepsQueue(cfg: Config, m: Memory, m': Memory, g: Trail)
    requires cfg.Valid() && QueueOk(cfg, m, g) && m'.nodes == m.nodes && EndsOk(m', g)
    ensures QueueOk(cfg, m', g)
  {
    forall i | 0 <= i < |g.ids| ensures NodeOk(m', g, i) { assert NodeOk(m, g, i); }
  }

  /** The steps around the link: take the lock, look at the tail, move it, give the lock back. */
  lemma AroundKeepsEnds(cfg: Config, m: Memory, g: Trail, t: nat, h: nat, a: Agent, fails: bool)
    requires MemoryOk(cfg, m) && AgentInside(cfg, a) && t < cfg.Agents() && h < cfg.size
    requires EndsOk(m, g) && CriticalOk(m, g, t, a) && (Critical(a.pc) ==> m.locked)
    requires HandingOver(a.pc) && !a.pc.WriteHead? && !a.pc.LinkOld? && !a.pc.Alloc?
    ensures var m' := HandOverStep(cfg, m, t, h, a, fails).mem; EndsOk(m', g) && m'.nodes == m.nodes
  {
  }

  lemma HandOverKeepsQueue(cfg: Config, s: State, g: Trail, t: nat, h: nat, fails: bool)
    requires WellFormed(cfg, s) && Ledger(cfg, s, g) && QueueOk(cfg, s.mem, g) && t < |s.agents|
    requires cfg.RoleOf(t).h == h < cfg.size && HandOverOk(s.mem, g, t, h, s.agents[t]) && HandingOver(s.agents[t].pc)
    ensures var o, g' := HandOverStep(cfg, s.mem, t, h, s.agents[t], fails), AgentTrail(g, t, h, s.agents[t]);
      QueueOk(cfg, o.mem, g')
  {
    var m, a := s.mem, s.agents[t];
    if Critical(a.pc) { CriticalAlone(cfg, s, g, t); }
    if Unlinked(a.pc) { CarriedIsNew(cfg, s, g, t, h); }
    if a.pc.WriteHead? {
      WriteHeadKeepsQueue(cfg, m, g, t, h);
    } else if a.pc.LinkOld? {
      NodesDiffer(cfg, s, g);
      LinkOldKeepsQueue(cfg, m, g, t, h);
    } else if a.pc.Alloc? {
      AllocKeepsQueue(cfg, m, g, t, h);
    } else {
      AroundKeepsEnds(cfg, m, g, t, h, a, fails);
      QuietKeepsQueue(cfg, m, HandOverStep(cfg, m, t, h, a, fails).mem, g);
    }
  }

  lemma AgentKeepsQueue(cfg: Config, s: State, g: Trail, t: nat, choice: nat, fails: bool)
    requires WellFormed(cfg, s) && Ledger(cfg, s, g) && QueueOk(cfg, s.mem, g) && t < |s.agents|
    requires AgentOk(cfg, s.mem, g, t, s.agents[t])
    ensures var o, g' := AgentStep(cfg, s.mem, t, s.agents[t], choice, fails),
                         AgentTrail(g, t, cfg.RoleOf(t).h, s.agents[t]);
      QueueOk(cfg, o.mem, g')
  {
    var m, a := s.mem, s.agents[t];
    if HandingOver(a.pc) {
      HandsOver(cfg, m, g, t, a);
      HandOverKeepsQueue(cfg, s, g, t, cfg.RoleOf(t).h, fails);
    } else {
      QuietKeepsQueue(cfg, m, AgentStep(cfg, m, t, a, choice, fails).mem, g);
    }
  }

  // ----- the reaper under an agent's step

  /** Linking one more node changes nothing the reaper relies on. */
  lemma ReaperFrame(m: Memory, m': Memory, r: Reaper, g: Trail, t: nat, h: nat)
    requires ReaperOk(m, r, g) && Later(m, m', t) && (ReaperHolds(r) ==> m'.tail == m.tail)
    ensures ReaperOk(m', r, g)
    ensures !ReaperHolds(r) ==> ReaperOk(m', r, g.(ids := g.ids + [t], handles := g.handles + [h]))
  {
    if r.pc.HandleFree? || r.pc.NodeFree? {
      assert HandleLater(m.handles[r.thread], m'.handles[r.thread], r.thread != t);
    }
  }

  lemma AgentKeepsReaper(cfg: Config, s: State, g: Trail, t: nat, choice: nat, fails: bool)
    requires Inv(cfg, s, g) && t < |s.agents|
    ensures var o, g' := AgentStep(cfg, s.mem, t, s.agents[t], choice, fails),
                         AgentTrail(g, t, cfg.RoleOf(t).h, s.agents[t]);
      ReaperOk(o.mem, s.reaper, g')
  {
    var a := s.agents[t];
    var o := AgentStep(cfg, s.mem, t, a, choice, fails);
    assert AgentOk(cfg, s.mem, g, t, s.agents[t]);
    AgentLater(cfg, s.mem, g, t, a, choice, fails);
    AgentTouches(cfg, s.mem, g, t, a, choice, fails);
    if ReaperHolds(s.reaper) { ReaperAlone(cfg, s, g, t); }
    if Links(a) && 0 <= cfg.RoleOf(t).h {
      CriticalAlone(cfg, s, g, t);
      ReaperFrame(s.mem, o.mem, s.reaper, g, t, cfg.RoleOf(t).h);
    } else {
      ReaperFrame(s.mem, o.mem, s.reaper, g, t, 0);
    }
  }

  // ----- the reaper's own steps

  lemma DequeueStaysOk(cfg: Config, m: Memory, r: Reaper, g: Trail, fails: bool)
    requires MemoryOk(cfg, m) && ReaperInside(cfg, r) && ReaperOk(m, r, g)
    requires m.head == (if g.taken == |g.ids| then NULL else g.ids[g.taken]) && (!m.locked ==> TailOk(m, g))
    requires r.pc.QueueLock? || ReaperHolds(r)
    ensures var o, g' := DequeueStep(cfg, m, r, fails), ReaperTrail(g, r);
      ReaperOk(o.mem, o.r, g')
  {
  }

  lemma WalkStaysOk(cfg: Config, m: Memory, r: Reaper, g: Trail)
    requires MemoryOk(cfg, m) && ReaperInside(cfg, r) && ReaperOk(m, r, g) && Walking(r)
    requires g.ids[g.done] < |m.nodes| && NodeOk(m, g, g.done)
    ensures var o, g' := WalkStep(cfg, m, r), ReaperTrail(g, r);
      ReaperOk(o.mem, o.r, g')
  {
  }

  lemma WaitStaysOk(cfg: Config, m: Memory, r: Reaper, g: Trail, fails: bool)
    requires MemoryOk(cfg, m) && ReaperInside(cfg, r) && ReaperOk(m, r, g)
    requires r.pc.Off? || r.pc.CountLoad? || r.pc.CountWait? || r.pc.CountAsleep? || r.pc.CountSub?
    ensures var o, g' := ReaperStep(cfg, m, r, fails), ReaperTrail(g, r);
      ReaperOk(o.mem, o.r, g')
  {
  }

  predicate Walking(r: Reaper) {
    r.pc.NodeRead? || r.pc.ReapMark? || r.pc.HandleFree? || r.pc.NodeFree?
  }

  lemma ReaperRuns(cfg: Config, m: Memory, r: Reaper, fails: bool)
    requires MemoryOk(cfg, m) && ReaperInside(cfg, r)
    ensures Walking(r) ==> ReaperStep(cfg, m, r, fails) == WalkStep(cfg, m, r)
    ensures Dequeuing(r) ==> ReaperStep(cfg, m, r, fails) == DequeueStep(cfg, m, r, fails)
    ensures !Walking(r) && !Dequeuing(r) ==>
              var o := ReaperStep(cfg, m, r, fails).mem;
              o.handles == m.handles && o.nodes == m.nodes && o.head == m.head && o.tail == m.tail
              && o.locked == m.locked && o.started == m.started && o.cloned == m.cloned
  {
  }

  lemma ReaperStaysOk(cfg: Config, m: Memory, r: Reaper, g: Trail, fails: bool)
    requires MemoryOk(cfg, m) && ReaperInside(cfg, r) && QueueOk(cfg, m, g) && ReaperOk(m, r, g)
    ensures var o, g' := ReaperStep(cfg, m, r, fails), ReaperTrail(g, r);
      ReaperOk(o.mem, o.r, g')
  {
    ReaperRuns(cfg, m, r, fails);
    if Walking(r) {
      assert NodeOk(m, g, g.done);
      WalkStaysOk(cfg, m, r, g);
    }
    else if Dequeuing(r) { DequeueStaysOk(cfg, m, r, g, fails); }
    else { WaitStaysOk(cfg, m, r, g, fails); }
  }

  lemma TakingKeepsQueue(cfg: Config, m: Memory, g: Trail)
    requires cfg.Valid() && QueueOk(cfg, m, g) && g.done == g.taken && m.locked
    ensures QueueOk(cfg, m.(head := NULL), g.(taken := |g.ids|))
  {
    var m', g' := m.(head := NULL), g.(taken := |g.ids|);
    forall i | 0 <= i < |g'.ids| ensures NodeOk(m', g', i) { assert NodeOk(m, g, i); }
  }

  lemma DequeueKeepsQueue(cfg: Config, m: Memory, r: Reaper, g: Trail, fails: bool)
    requires MemoryOk(cfg, m) && ReaperInside(cfg, r) && QueueOk(cfg, m, g) && ReaperOk(m, r, g)
    requires Dequeuing(r) && (ReaperHolds(r) ==> m.locked)
    ensures QueueOk(cfg, DequeueStep(cfg, m, r, fails).mem, ReaperTrail(g, r))
  {
    if r.pc.HeadClear? { TakingKeepsQueue(cfg, m, g); }
    else { QuietKeepsQueue(cfg, m, DequeueStep(cfg, m, r, fails).mem, g); }
  }

  ghost predicate SameLinks(m: Memory, m': Memory) {
    && m'.head == m.head && m'.tail == m.tail && m'.locked == m.locked && m'.started == m.started
    && |m'.nodes| == |m.nodes|
    && forall x {:trigger m'.nodes[x]} :: 0 <= x < |m.nodes| ==>
         m'.nodes[x].thread == m.nodes[x].thread && m'.nodes[x].next == m.nodes[x].next
  }

  lemma DoneKeepsQueue(cfg: Config, m: Memory, m': Memory, g: Trail, done: nat)
    requires cfg.Valid() && QueueOk(cfg, m, g) && g.done <= done <= g.taken && SameLinks(m, m')
    ensures QueueOk(cfg, m', g.(done := done))
  {
    var g' := g.(done := done);
    forall i | 0 <= i < |g'.ids| ensures NodeOk(m', g', i) { assert NodeOk(m, g, i); }
  }

  lemma WalkKeepsLinks(cfg: Config, m: Memory, r: Reaper)
    requires MemoryOk(cfg, m) && ReaperInside(cfg, r)
    ensures SameLinks(m, WalkStep(cfg, m, r).mem)
  {
  }

  lemma WalkKeepsQueue(cfg: Config, m: Memory, r: Reaper, g: Trail)
    requires MemoryOk(cfg, m) && ReaperInside(cfg, r) && QueueOk(cfg, m, g) && ReaperOk(m, r, g) && Walking(r)
    ensures QueueOk(cfg, WalkStep(cfg, m, r).mem, ReaperTrail(g, r))
  {
    WalkKeepsLinks(cfg, m, r);
    DoneKeepsQueue(cfg, m, WalkStep(cfg, m, r).mem, g, ReaperTrail(g, r).done);
  }

  lemma ReaperKeepsQueue(cfg: Config, s: State, g: Trail, fails: bool)
    requires Inv(cfg, s, g)
    ensures QueueOk(cfg, ReaperStep(cfg, s.mem, s.reaper, fails).mem, ReaperTrail(g, s.reaper))
  {
    ReaperRuns(cfg, s.mem, s.reaper, fails);
    if Walking(s.reaper) {
      WalkKeepsQueue(cfg, s.mem, s.reaper, g);
    } else if Dequeuing(s.reaper) {
      BookNonNegative(cfg, s, g, Holding);
      DequeueKeepsQueue(cfg, s.mem, s.reaper, g, fails);
    } else {
      QuietKeepsQueue(cfg, s.mem, ReaperStep(cfg, s.mem, s.reaper, fails).mem, g);
    }
  }

  /** What agents rely on while the reaper steps. */
  lemma ReaperTouches(cfg: Config, m: Memory, r: Reaper, g: Trail, fails: bool)
    requires MemoryOk(cfg, m) && ReaperInside(cfg, r) && ReaperOk(m, r, g)
    ensures var o, g' := ReaperStep(cfg, m, r, fails).mem, ReaperTrail(g, r);
      && (!ReaperHolds(r) ==> o.tail == m.tail)
      && g'.ids == g.ids && (!ReaperHolds(r) ==> g'.taken == g.taken)
      && |o.nodes| == |m.nodes|
      && forall u :: 0 <= u < |m.nodes| && u !in g.ids ==> o.nodes[u] == m.nodes[u]
  {
    ReaperRuns(cfg, m, r, fails);
  }

  lemma ReaperSparesAgent(cfg: Config, s: State, g: Trail, fails: bool, u: nat)
    requires Inv(cfg, s, g) && u < |s.agents|
    ensures AgentOk(cfg, ReaperStep(cfg, s.mem, s.reaper, fails).mem, ReaperTrail(g, s.reaper), u, s.agents[u])
  {
    var m', g', a := ReaperStep(cfg, s.mem, s.reaper, fails).mem, ReaperTrail(g, s.reaper), s.agents[u];
    assert AgentOk(cfg, s.mem, g, u, s.agents[u]);
    ReaperLater(cfg, s.mem, s.reaper, fails);
    ReaperTouches(cfg, s.mem, s.reaper, g, fails);
    if ReaperHolds(s.reaper) { ReaperAlone(cfg, s, g, u); }
    if Unlinked(a.pc) {
      HandsOver(cfg, s.mem, g, u, a);
      CarriedIsNew(cfg, s, g, u, cfg.RoleOf(u).h);
    }
    OtherStaysOk(cfg, s.mem, m', g, g', NULL, u, a);
  }

  // ----- the books

  /** A step changes what it owes and what is on the books alike. */
  ghost predicate Even(k: Kind, m: Memory, m': Memory, r: Reaper, g: Trail, g': Trail,
                       role: Role, a: Agent, a': Agent) {
    Book(k, m', r, g') - Book(k, m, r, g) == Weight(k, role, a') - Weight(k, role, a)
  }

  lemma LinkBooks(k: Kind, m: Memory, m': Memory, r: Reaper, g: Trail, t: nat, h: nat)
    requires h < |m.handles| && m'.handles == m.handles && m'.count == m.count
    requires m'.locked == m.locked && m'.started == m.started && m'.cloned == m.cloned
    ensures Book(k, m', r, g.(ids := g.ids + [t], handles := g.handles + [h])) - Book(k, m, r, g)
         == if k.Lagging? then 1 else if k == Carrying(h) then -1 else 0
  {
    assert multiset(g.handles + [h]) == multiset(g.handles) + multiset{h};
  }

  /** Around the link no handle changes, and only the start of the reaper, the lock and the count are at stake. */
  ghost predicate AroundLink(m: Memory, m': Memory, a: Agent, a': Agent) {
    && m'.handles == m.handles
    && One(m'.started) - One(m'.cloned) - One(m.started) + One(m.cloned)
       == One(a'.pc.CloneReaper?) - One(a.pc.CloneReaper?)
    && One(m'.locked) - One(m.locked) == One(Critical(a'.pc)) - One(Critical(a.pc))
    && m.count - m'.count == One(Uncounted(a'.pc)) - One(Uncounted(a.pc))
    && (Unlinked(a'.pc) <==> Unlinked(a.pc)) && DetachWon(a') && !a'.pc.FreeHandle?
  }

  lemma BeforeLinkShifts(cfg: Config, m: Memory, t: nat, a: Agent, h: nat, fails: bool)
    requires MemoryOk(cfg, m) && AgentInside(cfg, a) && t < cfg.Agents() && h < cfg.size
    requires Unlinked(a.pc) && !a.pc.WriteHead? && !a.pc.LinkOld? && (a.pc.CloneReaper? ==> !m.cloned)
    ensures var o := HandOverStep(cfg, m, t, h, a, fails); AroundLink(m, o.mem, a, o.a)
  {
  }

  lemma AfterLinkShifts(cfg: Config, m: Memory, t: nat, a: Agent, h: nat, fails: bool)
    requires MemoryOk(cfg, m) && AgentInside(cfg, a) && t < cfg.Agents() && h < cfg.size
    requires (Uncounted(a.pc) || a.pc.WakeReaper?) && (Critical(a.pc) ==> m.locked)
    ensures var o := HandOverStep(cfg, m, t, h, a, fails); AroundLink(m, o.mem, a, o.a)
  {
  }

  lemma AroundShifts(cfg: Config, m: Memory, t: nat, a: Agent, h: nat, fails: bool)
    requires MemoryOk(cfg, m) && AgentInside(cfg, a) && t < cfg.Agents() && h < cfg.size
    requires HandingOver(a.pc) && (Critical(a.pc) ==> m.locked) && !a.pc.WriteHead? && !a.pc.LinkOld?
    requires a.pc.CloneReaper? ==> !m.cloned
    ensures var o := HandOverStep(cfg, m, t, h, a, fails); AroundLink(m, o.mem, a, o.a)
  {
    if Unlinked(a.pc) { BeforeLinkShifts(cfg, m, t, a, h, fails); } else { AfterLinkShifts(cfg, m, t, a, h, fails); }
  }

  lemma ShiftsEven(k: Kind, m: Memory, m': Memory, r: Reaper, g: Trail, role: Role, a: Agent, a': Agent)
    requires AroundLink(m, m', a, a') && !role.Joiner? && DetachWon(a)
    ensures Even(k, m, m', r, g, g, role, a, a')
  {
  }

  lemma LinkingBooks(cfg: Config, m: Memory, r: Reaper, g: Trail, t: nat, a: Agent, role: Role, fails: bool, k: Kind)
    requires MemoryOk(cfg, m) && AgentInside(cfg, a) && t < cfg.Agents() && 0 <= role.h < cfg.size && !role.Joiner?
    requires Links(a)
    ensures var o, g' := HandOverStep(cfg, m, t, role.h, a, fails), AgentTrail(g, t, role.h, a);
      Even(k, m, o.mem, r, g, g', role, a, o.a)
  {
    LinkBooks(k, m, HandOverStep(cfg, m, t, role.h, a, fails).mem, r, g, t, role.h);
  }

  lemma HandOverBooks(cfg: Config, m: Memory, r: Reaper, g: Trail, t: nat, a: Agent, role: Role, fails: bool, k: Kind)
    requires MemoryOk(cfg, m) && AgentInside(cfg, a) && t < cfg.Agents() && 0 <= role.h < cfg.size && !role.Joiner?
    requires HandingOver(a.pc) && (Critical(a.pc) ==> m.locked) && (a.pc.LinkOld? ==> a.oldTail != NULL)
    requires a.pc.CloneReaper? ==> !m.cloned
    ensures var o, g' := HandOverStep(cfg, m, t, role.h, a, fails), AgentTrail(g, t, role.h, a);
      Even(k, m, o.mem, r, g, g', role, a, o.a)
  {
    if Links(a) {
      LinkingBooks(cfg, m, r, g, t, a, role, fails, k);
    } else {
      var o := HandOverStep(cfg, m, t, role.h, a, fails);
      AroundShifts(cfg, m, t, a, role.h, fails);
      ShiftsEven(k, m, o.mem, r, g, role, a, o.a);
    }
  }

  /** A bit x and an agent's being in a place y either both stay or are both reached. */
  predicate Together(x: bool, x': bool, y: bool, y': bool) {
    if x == x' then y == y' else x' && !y && y'
  }

  /** The bits of the word and the freeing go with the agent's place. */
  ghost predicate Shifts(hd: Handle, hd': Handle, role: Role, a: Agent, a': Agent) {
    && Together(hd.word.queued, hd'.word.queued, Unlinked(a.pc), Unlinked(a'.pc))
    && Together(hd.word.joined, hd'.word.joined, role.Joiner? && JoinWon(a), role.Joiner? && JoinWon(a'))
    && Together(hd.word.detached, hd'.word.detached, role.Detacher? && DetachWon(a), role.Detacher? && DetachWon(a'))
    && (if hd'.freed == hd.freed
        then Together(hd.word.reaped, hd'.word.reaped,
                      role.Joiner? && a.pc.FreeHandle?, role.Joiner? && a'.pc.FreeHandle?)
        else hd'.freed == hd.freed + 1 && hd'.word == hd.word && role.Joiner? && a.pc.FreeHandle? && !a'.pc.FreeHandle?)
  }

  lemma JoinShifts(hd: Handle, t: nat, h: int, wants: bool, a: Agent)
    requires JoinerOk(hd, wants, a)
    ensures var o := JoinStep(hd, t, wants, a);
      Shifts(hd, o.hd, Joiner(h, wants), a, o.a) && !HandingOver(o.a.pc)
  {
  }

  lemma ExitShifts(hd: Handle, h: int, a: Agent, choice: nat)
    requires !HandingOver(a.pc)
    ensures var o := ExitStep(hd, a, choice);
      Shifts(hd, o.hd, Exiter(h), a, o.a) && (!HandingOver(o.a.pc) || o.a.pc.StartReaper?)
  {
  }

  lemma DetachShifts(hd: Handle, h: int, a: Agent, fails: bool)
    requires DetacherOk(hd, a) && !HandingOver(a.pc)
    ensures var o := DetachStep(hd, a, fails);
      Shifts(hd, o.hd, Detacher(h), a, o.a) && (!HandingOver(o.a.pc) || o.a.pc.StartReaper?)
  {
  }

  lemma OwnShifts(hd: Handle, t: nat, role: Role, a: Agent, choice: nat, fails: bool)
    requires OwnOk(hd, role, a) && !HandingOver(a.pc)
    ensures var o := OwnStep(hd, t, role, a, choice, fails);
      Shifts(hd, o.hd, role, a, o.a) && (!HandingOver(o.a.pc) || o.a.pc.StartReaper?)
  {
    match role
    case Exiter(h) => ExitShifts(hd, h, a, choice);
    case Joiner(h, wants) => JoinShifts(hd, t, h, wants, a);
    case Detacher(h) => DetachShifts(hd, h, a, fails);
  }

  lemma OwnBooks(k: Kind, m: Memory, r: Reaper, g: Trail, hd: Handle, role: Role, a: Agent, a': Agent)
    requires 0 <= role.h < |m.handles| && Shifts(m.handles[role.h], hd, role, a, a')
    requires !HandingOver(a.pc) && (!HandingOver(a'.pc) || a'.pc.StartReaper?)
    ensures Even(k, m, SetHandle(m, role.h, hd), r, g, g, role, a, a')
  {
  }

  lemma AgentBooks(cfg: Config, s: State, g: Trail, t: nat, choice: nat, fails: bool, k: Kind)
    requires WellFormed(cfg, s) && Ledger(cfg, s, g) && t < |s.agents| && AgentOk(cfg, s.mem, g, t, s.agents[t])
    ensures var a, role := s.agents[t], cfg.RoleOf(t);
      var o, g' := AgentStep(cfg, s.mem, t, a, choice, fails), AgentTrail(g, t, role.h, a);
      Even(k, s.mem, o.mem, s.reaper, g, g', role, a, o.a)
  {
    var m, a, role := s.mem, s.agents[t], cfg.RoleOf(t);
    if HandingOver(a.pc) {
      HandsOver(cfg, m, g, t, a);
      Counted(cfg, s, g, Holding, t);
      Counted(cfg, s, g, Starting, t);
      HandOverBooks(cfg, m, s.reaper, g, t, a, role, fails, k);
    } else if role.h != NULL {
      var o := OwnStep(m.handles[role.h], t, role, a, choice, fails);
      OwnShifts(m.handles[role.h], t, role, a, choice, fails);
      OwnBooks(k, m, s.reaper, g, o.hd, role, a, o.a);
    }
  }

  lemma AgentKeepsLedger(cfg: Config, s: State, g: Trail, t: nat, choice: nat, fails: bool)
    requires WellFormed(cfg, s) && Ledger(cfg, s, g) && t < |s.agents| && AgentOk(cfg, s.mem, g, t, s.agents[t])
    ensures Ledger(cfg, Step(cfg, s, Run(t, choice, fails)), AgentTrail(g, t, cfg.RoleOf(t).h, s.agents[t]))
  {
    var s', g' := Step(cfg, s, Run(t, choice, fails)), AgentTrail(g, t, cfg.RoleOf(t).h, s.agents[t]);
    forall k: Kind
      ensures Total(cfg, k, s'.agents) == Book(k, s'.mem, s'.reaper, g')
    {
      assert Total(cfg, k, s.agents) == Book(k, s.mem, s.reaper, g);
      AgentBooks(cfg, s, g, t, choice, fails, k);
      TotalUpdate(cfg, k, s.agents, t, s'.agents[t]);
    }
  }

  lemma NodeBooks(cfg: Config, m: Memory, r: Reaper, g: Trail, k: Kind)
    requires MemoryOk(cfg, m) && ReaperInside(cfg, r) && ReaperOk(m, r, g) && (r.pc.NodeRead? || r.pc.NodeFree?)
    ensures var o := WalkStep(cfg, m, r); Book(k, o.mem, o.r, ReaperTrail(g, r)) == Book(k, m, r, g)
  {
  }

  lemma ReapBooks(m: Memory, r: Reaper, r': Reaper, g: Trail, k: Kind)
    requires 0 <= r.thread < |m.handles| && (r.pc.ReapMark? || r.pc.HandleFree?)
    requires r' == r.(pc := if r.pc.ReapMark? && !m.handles[r.thread].word.reaped then HandleFree else NodeFree)
    ensures Book(k, SetHandle(m, r.thread, ReapStep(m.handles[r.thread], r.pc)), r', g) == Book(k, m, r, g)
  {
  }

  lemma WalkBooks(cfg: Config, m: Memory, r: Reaper, g: Trail, k: Kind)
    requires MemoryOk(cfg, m) && ReaperInside(cfg, r) && ReaperOk(m, r, g) && Walking(r)
    ensures var o := WalkStep(cfg, m, r); Book(k, o.mem, o.r, ReaperTrail(g, r)) == Book(k, m, r, g)
  {
    if r.pc.ReapMark? || r.pc.HandleFree? { ReapBooks(m, r, WalkStep(cfg, m, r).r, g, k); }
    else { NodeBooks(cfg, m, r, g, k); }
  }

  lemma DequeueBooks(cfg: Config, m: Memory, r: Reaper, g: Trail, fails: bool, k: Kind)
    requires MemoryOk(cfg, m) && ReaperInside(cfg, r) && ReaperOk(m, r, g)
    requires Dequeuing(r) && (ReaperHolds(r) ==> m.locked)
    ensures var o := DequeueStep(cfg, m, r, fails); Book(k, o.mem, o.r, ReaperTrail(g, r)) == Book(k, m, r, g)
  {
  }

  lemma WaitBooks(cfg: Config, m: Memory, r: Reaper, g: Trail, fails: bool, k: Kind)
    requires MemoryOk(cfg, m) && ReaperInside(cfg, r) && ReaperOk(m, r, g) && !Walking(r) && !Dequeuing(r)
    ensures var o := ReaperStep(cfg, m, r, fails); Book(k, o.mem, o.r, ReaperTrail(g, r)) == Book(k, m, r, g)
  {
  }

  lemma ReaperKeepsLedger(cfg: Config, s: State, g: Trail, fails: bool)
    requires WellFormed(cfg, s) && Ledger(cfg, s, g) && ReaperOk(s.mem, s.reaper, g)
    ensures Ledger(cfg, Step(cfg, s, Reap(fails)), ReaperTrail(g, s.reaper))
  {
    var s', g' := Step(cfg, s, Reap(fails)), ReaperTrail(g, s.reaper);
    ReaperRuns(cfg, s.mem, s.reaper, fails);
    BookNonNegative(cfg, s, g, Holding);
    forall k: Kind
      ensures Total(cfg, k, s'.agents) == Book(k, s'.mem, s'.reaper, g')
    {
      assert Total(cfg, k, s.agents) == Book(k, s.mem, s.reaper, g);
      if Walking(s.reaper) { WalkBooks(cfg, s.mem, s.reaper, g, k); }
      else if Dequeuing(s.reaper) { DequeueBooks(cfg, s.mem, s.reaper, g, fails, k); }
      else { WaitBooks(cfg, s.mem, s.reaper, g, fails, k); }
    }
  }

  // ----- sleeping joiners

  /** What a step outside the hand-over makes of the sleepers on `finished`. */
  lemma OwnWaiters(hd: Handle, t: nat, role: Role, a: Agent, choice: nat, fails: bool)
    ensures var o := OwnStep(hd, t, role, a, choice, fails);
      && (if role.Exiter? && a.pc.WakeJoiner? then o.hd.waiters == WakeOne(hd.waiters, choice)
          else if role.Joiner? && a.pc.Wait? && !hd.finished then o.hd.waiters == hd.waiters + [t] && o.a.pc.Asleep?
          else o.hd.waiters == hd.waiters)
      && (if role.Exiter? && a.pc.StoreFinished? then o.hd.finished && o.a.pc.WakeJoiner?
          else o.hd.finished == hd.finished)
      && (role.Joiner? && a.pc.Asleep? && t in hd.waiters ==> o.a == a)
  {
  }

  lemma OneWinner(cfg: Config, s: State, g: Trail, k: Kind, t: nat, u: nat)
    requires cfg.Valid() && |s.agents| == cfg.Agents() && Ledger(cfg, s, g) && t < |s.agents| && u < |s.agents|
    requires Book(k, s.mem, s.reaper, g) <= 1
    requires Weight(k, cfg.RoleOf(t), s.agents[t]) == 1 && Weight(k, cfg.RoleOf(u), s.agents[u]) == 1
    ensures t == u
  {
    Counted(cfg, s, g, k, t);
  }

  /** Whoever sleeps on handle h is the one agent that won its join. */
  lemma WaiterIsWinner(cfg: Config, s: State, g: Trail, t: nat, h: nat)
    requires WellFormed(cfg, s) && Ledger(cfg, s, g) && t < |s.agents| && h < cfg.size
    requires cfg.RoleOf(t).Joiner? && cfg.RoleOf(t).h == h && s.agents[t].pc.Wait?
    requires WaitersOk(cfg, s.mem, s.agents, h)
    ensures s.mem.handles[h].waiters == []
  {
    var ws := s.mem.handles[h].waiters;
    if ws != [] {
      var u := ws[0];
      OneWinner(cfg, s, g, Joining(h), t, u);
    }
  }

  lemma OwnKeepsWaiters(cfg: Config, s: State, g: Trail, t: nat, choice: nat, fails: bool)
    requires WellFormed(cfg, s) && Ledger(cfg, s, g) && t < |s.agents| && AgentOk(cfg, s.mem, g, t, s.agents[t])
    requires cfg.RoleOf(t).h != NULL && !HandingOver(s.agents[t].pc)
    requires WaitersOk(cfg, s.mem, s.agents, cfg.RoleOf(t).h)
    ensures var s' := Step(cfg, s, Run(t, choice, fails)); WaitersOk(cfg, s'.mem, s'.agents, cfg.RoleOf(t).h)
  {
    var role, a := cfg.RoleOf(t), s.agents[t];
    OwnWaiters(s.mem.handles[role.h], t, role, a, choice, fails);
    if role.Joiner? && a.pc.Wait? { WaiterIsWinner(cfg, s, g, t, role.h); }
  }

  lemma AgentKeepsWaiters(cfg: Config, s: State, g: Trail, t: nat, choice: nat, fails: bool, h: nat)
    requires WellFormed(cfg, s) && Ledger(cfg, s, g) && t < |s.agents| && AgentOk(cfg, s.mem, g, t, s.agents[t])
    requires h < cfg.size && WaitersOk(cfg, s.mem, s.agents, h)
    ensures var s' := Step(cfg, s, Run(t, choice, fails)); WaitersOk(cfg, s'.mem, s'.agents, h)
  {
    var role, a := cfg.RoleOf(t), s.agents[t];
    if role.h != NULL {
      if HandingOver(a.pc) { HandOverKeepsHandles(cfg, s.mem, t, role.h, a, fails); }
      else if role.h == h { OwnKeepsWaiters(cfg, s, g, t, choice, fails); }
    }
  }

  // ----- hand-overs still owed

  lemma OwnOwes(hd: Handle, t: nat, role: Role, a: Agent, choice: nat, fails: bool, h: nat)
    requires OwnOk(hd, role, a) && role.h == h && !HandingOver(a.pc)
    ensures var o := OwnStep(hd, t, role, a, choice, fails);
      o.hd.word.detached && o.hd.finished && !o.hd.word.queued ==>
        || Owes(role, o.a, h)
        || (hd.word.detached && hd.finished && !hd.word.queued && !Owes(role, a, h))
  {
  }

  lemma AgentKeepsOwed(cfg: Config, s: State, g: Trail, t: nat, choice: nat, fails: bool, h: nat)
    requires WellFormed(cfg, s) && t < |s.agents| && AgentOk(cfg, s.mem, g, t, s.agents[t])
    requires h < cfg.size && OwedOk(cfg, s.mem, s.agents, h)
    ensures var s' := Step(cfg, s, Run(t, choice, fails)); OwedOk(cfg, s'.mem, s'.agents, h)
  {
    var role, a, s' := cfg.RoleOf(t), s.agents[t], Step(cfg, s, Run(t, choice, fails));
    var hd, hd' := s.mem.handles[h], s'.mem.handles[h];
    if role.h != NULL && HandingOver(a.pc) { HandOverKeepsHandles(cfg, s.mem, t, role.h, a, fails); }
    if role.h == h && !HandingOver(a.pc) { OwnOwes(hd, t, role, a, choice, fails, h); }
    if hd'.word.detached && hd'.finished && !hd'.word.queued {
      if Owes(role, s'.agents[t], h) {
        assert Owes(cfg.RoleOf(t), s'.agents[t], h);
      } else {
        var v :| 0 <= v < |s.agents| && Owes(cfg.RoleOf(v), s.agents[v], h);
        assert Owes(cfg.RoleOf(v), s'.agents[v], h);
      }
    }
  }

  // ----- the sleeping reaper

  /** What a step can do to a sleeping reaper: wake it, or count a node and then owe it a wake-up. */
  ghost predicate Counts(m: Memory, m': Memory, a: Agent, a': Agent) {
    && (m'.dozing ==> m.dozing && !a.pc.WakeReaper?)
    && (m'.count == m.count || (m'.count == m.count + 1 && a.pc.AddCount? && (m.count == 0 ==> a'.pc.WakeReaper?)))
  }

  lemma HandOverCounts(cfg: Config, m: Memory, t: nat, h: nat, a: Agent, fails: bool)
    requires MemoryOk(cfg, m) && AgentInside(cfg, a) && t < cfg.Agents() && h < cfg.size
    ensures var o := HandOverStep(cfg, m, t, h, a, fails); Counts(m, o.mem, a, o.a)
  {
  }

  lemma AgentCounts(cfg: Config, m: Memory, g: Trail, t: nat, a: Agent, choice: nat, fails: bool)
    requires MemoryOk(cfg, m) && AgentInside(cfg, a) && t < cfg.Agents() && AgentOk(cfg, m, g, t, a)
    ensures var o := AgentStep(cfg, m, t, a, choice, fails); Counts(m, o.mem, a, o.a)
  {
    if HandingOver(a.pc) {
      HandsOver(cfg, m, g, t, a);
      HandOverCounts(cfg, m, t, cfg.RoleOf(t).h, a, fails);
    }
  }

  lemma AgentKeepsDoze(cfg: Config, s: State, g: Trail, t: nat, choice: nat, fails: bool)
    requires WellFormed(cfg, s) && t < |s.agents| && AgentOk(cfg, s.mem, g, t, s.agents[t]) && DozeOk(s)
    ensures DozeOk(Step(cfg, s, Run(t, choice, fails)))
  {
    var s', a := Step(cfg, s, Run(t, choice, fails)), s.agents[t];
    AgentCounts(cfg, s.mem, g, t, a, choice, fails);
    if s'.mem.dozing && 0 < s'.mem.count {
      if s'.agents[t].pc.WakeReaper? {
      } else {
        var v :| 0 <= v < |s.agents| && s.agents[v].pc.WakeReaper?;
        assert s'.agents[v].pc.WakeReaper?;
      }
    }
  }

  // ----- the rest of the reaper's steps

  lemma ReapSparesHandle(hd: Handle, pc: ReaperPC)
    ensures var hd' := ReapStep(hd, pc);
      && hd'.finished == hd.finished && hd'.waiters == hd.waiters && hd'.retval == hd.retval
      && hd'.word == hd.word.(reaped := hd'.word.reaped)
  {
  }

  lemma WalkTouches(cfg: Config, m: Memory, r: Reaper, h: nat)
    requires MemoryOk(cfg, m) && ReaperInside(cfg, r) && h < cfg.size
    ensures var hd, hd' := m.handles[h], WalkStep(cfg, m, r).mem.handles[h];
      hd' == hd || hd' == ReapStep(hd, r.pc)
  {
  }

  lemma DequeueSparesHandles(cfg: Config, m: Memory, r: Reaper, fails: bool)
    requires MemoryOk(cfg, m) && ReaperInside(cfg, r)
    ensures DequeueStep(cfg, m, r, fails).mem.handles == m.handles
  {
  }

  /** The reaper marks and frees handles and leaves everything else in them alone. */
  lemma ReaperSparesHandle(cfg: Config, m: Memory, r: Reaper, fails: bool, h: nat)
    requires MemoryOk(cfg, m) && ReaperInside(cfg, r) && h < cfg.size
    ensures var hd, hd' := m.handles[h], ReaperStep(cfg, m, r, fails).mem.handles[h];
      && hd'.finished == hd.finished && hd'.waiters == hd.waiters && hd'.retval == hd.retval
      && hd'.word == hd.word.(reaped := hd'.word.reaped)
  {
    ReaperRuns(cfg, m, r, fails);
    if Walking(r) {
      WalkTouches(cfg, m, r, h);
      ReapSparesHandle(m.handles[h], r.pc);
    } else if Dequeuing(r) {
      DequeueSparesHandles(cfg, m, r, fails);
    }
  }

  lemma ReaperKeepsDoze(cfg: Config, s: State, fails: bool)
    requires WellFormed(cfg, s) && DozeOk(s)
    ensures DozeOk(Step(cfg, s, Reap(fails)))
  {
  }

  // ----- all together

  lemma AgentKeepsInv(cfg: Config, s: State, g: Trail, t: nat, choice: nat, fails: bool)
    requires Inv(cfg, s, g) && t < |s.agents|
    ensures Inv(cfg, Step(cfg, s, Run(t, choice, fails)), AgentTrail(g, t, cfg.RoleOf(t).h, s.agents[t]))
  {
    var s', g' := Step(cfg, s, Run(t, choice, fails)), AgentTrail(g, t, cfg.RoleOf(t).h, s.agents[t]);
    assert AgentOk(cfg, s.mem, g, t, s.agents[t]);
    AgentKeepsLedger(cfg, s, g, t, choice, fails);
    AgentKeepsHandles(cfg, s, g, t, choice, fails);
    AgentKeepsQueue(cfg, s, g, t, choice, fails);
    AgentKeepsReaper(cfg, s, g, t, choice, fails);
    AgentKeepsDoze(cfg, s, g, t, choice, fails);
    forall u | 0 <= u < |s'.agents|
      ensures AgentOk(cfg, s'.mem, g', u, s'.agents[u])
    {
      if u == t { AgentStaysOk(cfg, s.mem, g, t, s.agents[t], choice, fails); }
      else { OthersStayOk(cfg, s, g, t, choice, fails, u); }
    }
    forall h | 0 <= h < cfg.size
      ensures WaitersOk(cfg, s'.mem, s'.agents, h) && OwedOk(cfg, s'.mem, s'.agents, h)
    {
      assert WaitersOk(cfg, s.mem, s.agents, h) && OwedOk(cfg, s.mem, s.agents, h);
      AgentKeepsWaiters(cfg, s, g, t, choice, fails, h);
      AgentKeepsOwed(cfg, s, g, t, choice, fails, h);
    }
  }

  lemma ReaperKeepsInv(cfg: Config, s: State, g: Trail, fails: bool)
    requires Inv(cfg, s, g)
    ensures Inv(cfg, Step(cfg, s, Reap(fails)), ReaperTrail(g, s.reaper))
  {
    var s', g' := Step(cfg, s, Reap(fails)), ReaperTrail(g, s.reaper);
    ReaperKeepsLedger(cfg, s, g, fails);
    ReaperKeepsHandles(cfg, s, g, fails);
    ReaperKeepsQueue(cfg, s, g, fails);
    ReaperStaysOk(cfg, s.mem, s.reaper, g, fails);
    ReaperKeepsDoze(cfg, s, fails);
    forall u | 0 <= u < |s'.agents|
      ensures AgentOk(cfg, s'.mem, g', u, s'.agents[u])
    {
      ReaperSparesAgent(cfg, s, g, fails, u);
    }
    forall h | 0 <= h < cfg.size
      ensures WaitersOk(cfg, s'.mem, s'.agents, h) && OwedOk(cfg, s'.mem, s'.agents, h)
    {
      assert WaitersOk(cfg, s.mem, s.agents, h) && OwedOk(cfg, s.mem, s.agents, h);
      ReaperSparesHandle(cfg, s.mem, s.reaper, fails, h);
    }
  }

  predicate CalmHandle(hd: Handle, hd': Handle) {
    hd' == hd.(waiters := hd'.waiters) && (hd'.waiters == hd.waiters || hd'.waiters == [])
  }

  /** A spurious wake-up takes a sleeper off a list, which nothing relies on. */
  ghost predicate Calmer(m: Memory, m': Memory) {
    && m'.nodes == m.nodes && m'.head == m.head && m'.tail == m.tail && m'.locked == m.locked
    && m'.started == m.started && m'.cloned == m.cloned && m'.count == m.count && (m'.dozing ==> m.dozing)
    && |m'.handles| == |m.handles|
    && forall h {:trigger m'.handles[h]} :: 0 <= h < |m.handles| ==> CalmHandle(m.handles[h], m'.handles[h])
  }

  lemma CalmLater(m: Memory, m': Memory)
    requires Calmer(m, m')
    ensures Later(m, m', NULL)
  {
    forall h | 0 <= h < |m.handles| ensures HandleLater(m.handles[h], m'.handles[h], h != NULL) {
      assert CalmHandle(m.handles[h], m'.handles[h]);
    }
  }

  lemma CalmAgent(cfg: Config, m: Memory, m': Memory, g: Trail, u: nat, a: Agent)
    requires cfg.Valid() && |m.handles| == cfg.size && u < cfg.Agents() && Calmer(m, m') && AgentOk(cfg, m, g, u, a)
    ensures AgentOk(cfg, m', g, u, a)
  {
    CalmLater(m, m');
    OtherStaysOk(cfg, m, m', g, g, NULL, u, a);
  }

  lemma CalmHandles(cfg: Config, m: Memory, m': Memory, agents: seq<Agent>, h: nat)
    requires cfg.Valid() && |agents| == cfg.Agents() && h < |m.handles| == cfg.size && Calmer(m, m')
    requires HandleOk(m.handles[h]) && WaitersOk(cfg, m, agents, h) && OwedOk(cfg, m, agents, h)
    ensures HandleOk(m'.handles[h]) && WaitersOk(cfg, m', agents, h) && OwedOk(cfg, m', agents, h)
  {
    assert CalmHandle(m.handles[h], m'.handles[h]);
  }

  lemma CalmBooks(m: Memory, m': Memory, r: Reaper, g: Trail, k: Kind)
    requires Calmer(m, m')
    ensures Book(k, m', r, g) == Book(k, m, r, g)
  {
  }

  lemma CalmKeepsInv(cfg: Config, s: State, g: Trail, m': Memory)
    requires Inv(cfg, s, g) && Calmer(s.mem, m') && MemoryOk(cfg, m')
    ensures Inv(cfg, s.(mem := m'), g)
  {
    var s' := s.(mem := m');
    CalmLater(s.mem, m');
    ReaperFrame(s.mem, m', s.reaper, g, 0, 0);
    QuietKeepsQueue(cfg, s.mem, m', g);
    forall u | 0 <= u < |s'.agents|
      ensures AgentOk(cfg, s'.mem, g, u, s'.agents[u])
    {
      assert AgentOk(cfg, s.mem, g, u, s.agents[u]);
      CalmAgent(cfg, s.mem, m', g, u, s.agents[u]);
    }
    forall h | 0 <= h < cfg.size
      ensures HandleOk(m'.handles[h]) && WaitersOk(cfg, s'.mem, s'.agents, h) && OwedOk(cfg, s'.mem, s'.agents, h)
    {
      assert HandleOk(s.mem.handles[h]) && WaitersOk(cfg, s.mem, s.agents, h) && OwedOk(cfg, s.mem, s.agents, h);
      CalmHandles(cfg, s.mem, m', s.agents, h);
    }
    forall k: Kind
      ensures Total(cfg, k, s'.agents) == Book(k, s'.mem, s'.reaper, g)
    {
      assert Total(cfg, k, s.agents) == Book(k, s.mem, s.reaper, g);
      CalmBooks(s.mem, m', s.reaper, g, k);
    }
  }

  lemma RouseCalms(cfg: Config, s: State, h: nat, k: nat)
    requires WellFormed(cfg, s) && h < cfg.size && WaitersOk(cfg, s.mem, s.agents, h)
    ensures Calmer(s.mem, Step(cfg, s, Rouse(h, k)).mem)
  {
  }

  lemma StepKeepsInv(cfg: Config, s: State, g: Trail, act: Action)
    requires Inv(cfg, s, g)
    ensures Inv(cfg, Step(cfg, s, act), NextTrail(cfg, s, g, act))
  {
    match act
    case Run(t, choice, fails) => if t < |s.agents| { AgentKeepsInv(cfg, s, g, t, choice, fails); }
    case Reap(fails) => ReaperKeepsInv(cfg, s, g, fails);
    case Rouse(h, k) =>
      if h < cfg.size {
        assert WaitersOk(cfg, s.mem, s.agents, h);
        RouseCalms(cfg, s, h, k);
        CalmKeepsInv(cfg, s, g, Step(cfg, s, act).mem);
      }
    case RouseReaper => CalmKeepsInv(cfg, s, g, s.mem.(dozing := false));
  }

  lemma InitInv(cfg: Config)
    requires cfg.Valid()
    ensures Inv(cfg, Init(cfg), History(cfg, []))
  {
    var s := Init(cfg);
    forall k: Kind
      ensures Total(cfg, k, s.agents) == Book(k, s.mem, s.reaper, History(cfg, []))
    {
      SumZero(Weights(cfg, k, s.agents));
    }
  }

  /** The invariant holds in every reachable state, under every schedule. */
  lemma {:induction false} Reachable(cfg: Config, acts: seq<Action>)
    requires cfg.Valid()
    ensures Inv(cfg, Exec(cfg, acts), History(cfg, acts))
  {
    if acts == [] {
      InitInv(cfg);
    } else {
      var before := acts[..|acts| - 1];
      Reachable(cfg, before);
      StepKeepsInv(cfg, Exec(cfg, before), History(cfg, before), acts[|acts| - 1]);
    }
  }
}
