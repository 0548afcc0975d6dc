/** What holds of handles, agents, queue and reaper in every reachable state. */
module LifecycleInvariant {
  import opened Sums
  import opened Lifecycle

  // ----- the ledger

  /** What agents can be in the middle of: holding the queue lock; having linked a node without having
      counted it; starting the reaper; having queued handle h without having linked it; having won the
      join, or the detach, of handle h; being about to free handle h after a join. */
  datatype Kind =
    | Holding | Lagging | Starting
    | Carrying(h: nat) | Joining(h: nat) | Detaching(h: nat) | Freeing(h: nat)

  predicate Critical(pc: PC) {
    pc.ReadTail? || pc.WriteHead? || pc.ReadOldTail? || pc.LinkOld? || pc.WriteTail? || pc.Unlock?
  }

  predicate JoinWon(a: Agent) {
    || a.pc.CheckFinished? || a.pc.Wait? || a.pc.Asleep? || a.pc.ReadValue? || a.pc.MarkReaped? || a.pc.FreeHandle?
    || (a.pc.Done? && a.outcome.Success?)
  }

  predicate DetachWon(a: Agent) {
    a.pc.LoadFinished? || a.pc.MarkQueued? || HandingOver(a.pc) || (a.pc.Done? && a.outcome.Success?)
  }

  function One(b: bool): int {
    if b then 1 else 0
  }

  function Weight(k: Kind, role: Role, a: Agent): int {
    match k
    case Holding => One(Critical(a.pc))
    case Lagging => One(Uncounted(a.pc))
    case Starting => One(a.pc.CloneReaper?)
    case Carrying(h) => One(role.h == h && Unlinked(a.pc))
    case Joining(h) => One(role.Joiner? && role.h == h && JoinWon(a))
    case Detaching(h) => One(role.Detacher? && role.h == h && DetachWon(a))
    case Freeing(h) => One(role.Joiner? && role.h == h && a.pc.FreeHandle?)
  }

  predicate ReaperHolds(r: Reaper) {
    r.pc.HeadRead? || r.pc.HeadClear? || r.pc.TailClear? || r.pc.QueueUnlock?
  }

  /** How many agents of each kind the shared state accounts for. */
  function Book(k: Kind, m: Memory, r: Reaper, g: Trail): int {
    match k
    case Holding => One(m.locked) - One(ReaperHolds(r))
    case Lagging => |g.ids| - g.done + r.processed - m.count
    case Starting => One(m.started) - One(m.cloned)
    case Carrying(h) => if h < |m.handles| then One(m.handles[h].word.queued) - multiset(g.handles)[h] else 0
    case Joining(h) => if h < |m.handles| then One(m.handles[h].word.joined) else 0
    case Detaching(h) => if h < |m.handles| then One(m.handles[h].word.detached) else 0
    case Freeing(h) =>
      if h < |m.handles|
      then One(m.handles[h].word.reaped) - m.handles[h].freed - One(r.pc.HandleFree? && r.thread == h)
      else 0
  }

  function Weights(cfg: Config, k: Kind, agents: seq<Agent>): seq<int>
    requires cfg.Valid() && |agents| == cfg.Agents()
  {
    seq(|agents|, t requires 0 <= t < |agents| => Weight(k, cfg.RoleOf(t), agents[t]))
  }

  function Total(cfg: Config, k: Kind, agents: seq<Agent>): int
    requires cfg.Valid() && |agents| == cfg.Agents()
  {
    Sum(Weights(cfg, k, agents))
  }

  ghost predicate Ledger(cfg: Config, s: State, g: Trail)
    requires cfg.Valid() && |s.agents| == cfg.Agents()
  {
    forall k: Kind :: Total(cfg, k, s.agents) == Book(k, s.mem, s.reaper, g)
  }

  // ----- handles

  predicate HandleOk(hd: Handle) {
    && !(hd.word.joined && hd.word.detached)
    && (hd.word.queued ==> hd.word.detached && hd.finished)
    && (hd.word.reaped ==> (hd.word.joined || hd.word.queued) && hd.finished)
  }

  ghost predicate HandlesOk(m: Memory) {
    forall h {:trigger HandleOk(m.handles[h])} :: 0 <= h < |m.handles| ==> HandleOk(m.handles[h])
  }

  /** At most one thread sleeps on `finished`, and only while the wake-up is still to come. */
  ghost predicate WaitersOk(cfg: Config, m: Memory, agents: seq<Agent>, h: nat)
    requires cfg.Valid() && |agents| == cfg.Agents() && h < |m.handles| == cfg.size
  {
    var hd := m.handles[h];
    hd.waiters != [] ==>
      && |hd.waiters| == 1 && hd.waiters[0] < |agents|
      && cfg.RoleOf(hd.waiters[0]).Joiner? && cfg.RoleOf(hd.waiters[0]).h == h
      && agents[hd.waiters[0]].pc.Asleep?
      && (hd.finished ==> agents[h].pc.WakeJoiner?)
  }

  /** Has agent a still to look whether it must hand handle h over? */
  predicate Owes(role: Role, a: Agent, h: nat) {
    role.h == h && (if role.Exiter? then a.pc.WakeJoiner? || a.pc.LoadState? || a.pc.MarkQueued?
                    else role.Detacher? && (a.pc.LoadFinished? || a.pc.MarkQueued?))
  }

  /** A detached finished handle is queued, or someone has still to look at it. */
  ghost predicate OwedOk(cfg: Config, m: Memory, agents: seq<Agent>, h: nat)
    requires cfg.Valid() && |agents| == cfg.Agents() && h < |m.handles|
  {
    var hd := m.handles[h];
    hd.word.detached && hd.finished && !hd.word.queued ==>
      exists t :: 0 <= t < |agents| && Owes(cfg.RoleOf(t), agents[t], h)
  }

  // ----- the queue

  /** What the node at place i of the trail points to: taking the list cuts it off there. */
  function Succ(g: Trail, i: nat): int {
    if i + 1 == g.taken || |g.ids| <= i + 1 then NULL else g.ids[i + 1]
  }

  predicate TailOk(m: Memory, g: Trail) {
    m.tail == if g.taken >= |g.ids| then NULL else g.ids[|g.ids| - 1]
  }

  ghost predicate TrailOk(cfg: Config, g: Trail)
    requires cfg.Valid()
  {
    && |g.ids| == |g.handles| && g.done <= g.taken <= |g.ids|
    && forall i :: 0 <= i < |g.ids| ==>
         g.ids[i] < cfg.Agents() && g.handles[i] < cfg.size && cfg.RoleOf(g.ids[i]).h == g.handles[i]
  }

  /** The node at place i of the trail: its handle, and its link unless the reaper is through with it. */
  ghost predicate NodeOk(m: Memory, g: Trail, i: nat)
    requires i < |g.ids| == |g.handles| && g.ids[i] < |m.nodes|
  {
    m.nodes[g.ids[i]].thread == g.handles[i] && (g.done <= i ==> m.nodes[g.ids[i]].next == Succ(g, i))
  }

  ghost predicate NodesOk(m: Memory, g: Trail)
    requires |g.ids| == |g.handles| && forall i :: 0 <= i < |g.ids| ==> g.ids[i] < |m.nodes|
  {
    forall i {:trigger NodeOk(m, g, i)} :: 0 <= i < |g.ids| ==> NodeOk(m, g, i)
  }

  ghost predicate EndsOk(m: Memory, g: Trail) {
    && g.taken <= |g.ids|
    && m.head == (if g.taken == |g.ids| then NULL else g.ids[g.taken])
    && (!m.locked ==> TailOk(m, g))
    && (g.ids != [] ==> m.started)
  }

  ghost predicate QueueOk(cfg: Config, m: Memory, g: Trail)
    requires cfg.Valid()
  {
    TrailOk(cfg, g) && |m.nodes| == cfg.Agents() && NodesOk(m, g) && EndsOk(m, g)
  }

  // ----- the agents, one by one

  ghost predicate CriticalOk(m: Memory, g: Trail, t: nat, a: Agent) {
    match a.pc
    case ReadTail | Unlock => TailOk(m, g)
    case WriteHead => TailOk(m, g) && m.tail == NULL
    case ReadOldTail => TailOk(m, g) && m.tail != NULL
    case LinkOld => TailOk(m, g) && m.tail != NULL && a.oldTail == m.tail
    case WriteTail => g.taken < |g.ids| && g.ids[|g.ids| - 1] == t
    case _ => true
  }

  ghost predicate HandOverOk(m: Memory, g: Trail, t: nat, h: nat, a: Agent) {
    && t < |m.nodes|
    && (!a.pc.StartReaper? ==> m.started)
    && (a.pc.Lock? || (Critical(a.pc) && Unlinked(a.pc)) ==> m.nodes[t].thread == h && m.nodes[t].next == NULL)
    && CriticalOk(m, g, t, a)
  }

  /** What an agent knows of its handle, by its place in the code. */
  predicate ExiterOk(hd: Handle, a: Agent) {
    if a.pc.Running? || a.pc.StoreValue? then !hd.finished
    else if a.pc.StoreFinished? then !hd.finished && hd.retval == a.val
    else
      && hd.finished && hd.retval == a.val
      && if a.pc.MarkQueued? then hd.word.detached
         else if a.pc.Done? then a.outcome.Success?
         else a.pc.WakeJoiner? || a.pc.LoadState? || HandingOver(a.pc)
  }

  predicate JoinerOk(hd: Handle, wants: bool, a: Agent) {
    if a.pc.LoadWord? || a.pc.CheckFinished? || a.pc.Wait? || a.pc.Asleep? then true
    else if a.pc.TryJoin? then (a.s.detached ==> hd.word.detached) && (a.s.joined ==> hd.word.joined)
    else if a.pc.Done? && !a.outcome.Success? then a.outcome.Invalid? && (hd.word.joined || hd.word.detached)
    else if a.pc.ReadValue? then hd.finished
    else
      && (a.pc.MarkReaped? || a.pc.FreeHandle? || a.pc.Done?)
      && hd.finished && (wants ==> a.val == hd.retval) && (a.pc.MarkReaped? || hd.word.reaped)
  }

  predicate DetacherOk(hd: Handle, a: Agent) {
    if a.pc.LoadWord? then true
    else if a.pc.TryDetach? then (a.s.detached ==> hd.word.detached) && (a.s.joined ==> hd.word.joined)
    else if a.pc.Done? && a.outcome.Invalid? then hd.word.joined
    else
      && hd.word.detached
      && if a.pc.MarkQueued? then hd.finished
         else if a.pc.Done? then !a.outcome.Pending?
         else a.pc.LoadFinished? || HandingOver(a.pc)
  }

  predicate OwnOk(hd: Handle, role: Role, a: Agent) {
    match role
    case Exiter(_) => ExiterOk(hd, a)
    case Joiner(_, wants) => JoinerOk(hd, wants, a)
    case Detacher(_) => DetacherOk(hd, a)
  }

  ghost predicate AgentOk(cfg: Config, m: Memory, g: Trail, t: nat, a: Agent)
    requires cfg.Valid() && t < cfg.Agents() && |m.handles| == cfg.size
  {
    var role := cfg.RoleOf(t);
    if role.h == NULL then a.pc.LoadWord? || (a.pc.Done? && a.outcome.Invalid?)
    else OwnOk(m.handles[role.h], role, a) && (HandingOver(a.pc) ==> HandOverOk(m, g, t, role.h, a))
  }

  ghost predicate AgentsOk(cfg: Config, m: Memory, g: Trail, agents: seq<Agent>)
    requires cfg.Valid() && |agents| == cfg.Agents() && |m.handles| == cfg.size
  {
    forall t {:trigger AgentOk(cfg, m, g, t, agents[t])} :: 0 <= t < |agents| ==> AgentOk(cfg, m, g, t, agents[t])
  }

  // ----- the reaper

  ghost predicate ReaperOk(m: Memory, r: Reaper, g: Trail) {
    && (!r.pc.Off? ==> m.cloned)
    && g.done <= g.taken <= |g.ids| == |g.handles|
    && match r.pc
       case Off | CountLoad | CountWait | CountAsleep | QueueLock => r.processed == 0 && g.done == g.taken
       case HeadRead => r.processed == 0 && g.done == g.taken && TailOk(m, g)
       case HeadClear =>
         r.processed == 0 && g.done == g.taken < |g.ids| && r.cur == g.ids[g.taken] && TailOk(m, g)
       case TailClear => r.processed == 0 && g.done < g.taken == |g.ids| && r.cur == g.ids[g.done]
       case QueueUnlock =>
         && r.processed == 0 && TailOk(m, g) && g.taken == |g.ids|
         && r.cur == if g.done < g.taken then g.ids[g.done] else NULL
       case NodeRead => g.done < g.taken && r.cur == g.ids[g.done]
       case ReapMark =>
         g.done < g.taken && r.cur == g.ids[g.done] && r.nxt == Succ(g, g.done) && r.thread == g.handles[g.done]
       case HandleFree | NodeFree =>
         && g.done < g.taken && r.cur == g.ids[g.done] && r.nxt == Succ(g, g.done) && r.thread == g.handles[g.done]
         && 0 <= r.thread < |m.handles| && m.handles[r.thread].word.reaped
       case CountSub => g.done == g.taken
       case Fault => false
  }

  /** Nobody sleeps through an increment: while the reaper sleeps, `count` is 0 or the agent that found
      it 0 has still to wake it. */
  ghost predicate DozeOk(s: State) {
    s.mem.dozing ==>
      && s.reaper.pc.CountAsleep? && 0 <= s.mem.count
      && (0 < s.mem.count ==> exists t :: 0 <= t < |s.agents| && s.agents[t].pc.WakeReaper?)
  }

  ghost predicate Inv(cfg: Config, s: State, g: Trail) {
    && WellFormed(cfg, s)
    && Ledger(cfg, s, g)
    && HandlesOk(s.mem)
    && (forall h {:trigger WaitersOk(cfg, s.mem, s.agents, h)} ::
          0 <= h < cfg.size ==> WaitersOk(cfg, s.mem, s.agents, h))
    && (forall h {:trigger OwedOk(cfg, s.mem, s.agents, h)} ::
          0 <= h < cfg.size ==> OwedOk(cfg, s.mem, s.agents, h))
    && QueueOk(cfg, s.mem, g)
    && AgentsOk(cfg, s.mem, g, s.agents)
    && ReaperOk(s.mem, s.reaper, g)
    && DozeOk(s)
  }

  // ----- reading the ledger

  lemma WeightBound(k: Kind, role: Role, a: Agent)
    ensures 0 <= Weight(k, role, a) <= 1
  {
  }

  lemma {:induction false} SumTwo(xs: seq<int>, t: nat, u: nat)
    requires t < u < |xs| && forall i :: 0 <= i < |xs| ==> 0 <= xs[i]
    ensures xs[t] + xs[u] <= Sum(xs)
  {
    if t == 0 {
      SumNonNegative(xs[1..]);
      assert xs[1..][u - 1] == xs[u];
    } else {
      SumTwo(xs[1..], t - 1, u - 1);
    }
  }

  lemma {:induction false} SumPositive(xs: seq<int>) returns (t: nat)
    requires 0 < Sum(xs)
    ensures t < |xs| && 0 < xs[t]
  {
    if 0 < xs[0] {
      t := 0;
    } else {
      t := SumPositive(xs[1..]);
      t := t + 1;
    }
  }

  /** An agent of a kind is accounted for, and two of a kind are two. */
  lemma Counted(cfg: Config, s: State, g: Trail, k: Kind, t: nat)
    requires cfg.Valid() && |s.agents| == cfg.Agents() && Ledger(cfg, s, g) && t < |s.agents|
    ensures 0 <= Weight(k, cfg.RoleOf(t), s.agents[t]) <= Book(k, s.mem, s.reaper, g)
    ensures forall u :: 0 <= u < |s.agents| && u != t ==>
              Weight(k, cfg.RoleOf(t), s.agents[t]) + Weight(k, cfg.RoleOf(u), s.agents[u])
              <= Book(k, s.mem, s.reaper, g)
  {
    var ws := Weights(cfg, k, s.agents);
    assert Total(cfg, k, s.agents) == Book(k, s.mem, s.reaper, g);
    forall i | 0 <= i < |ws| ensures 0 <= ws[i] { WeightBound(k, cfg.RoleOf(i), s.agents[i]); }
    SumNonNegative(ws);
    assert ws[t] == Weight(k, cfg.RoleOf(t), s.agents[t]);
    forall u | 0 <= u < |s.agents| && u != t
      ensures Weight(k, cfg.RoleOf(t), s.agents[t]) + Weight(k, cfg.RoleOf(u), s.agents[u])
           <= Book(k, s.mem, s.reaper, g)
    {
      if t < u { SumTwo(ws, t, u); } else { SumTwo(ws, u, t); }
    }
  }

  /** What is on the books is in some agent's hands. */
  lemma Charged(cfg: Config, s: State, g: Trail, k: Kind) returns (t: nat)
    requires cfg.Valid() && |s.agents| == cfg.Agents() && Ledger(cfg, s, g) && 0 < Book(k, s.mem, s.reaper, g)
    ensures t < |s.agents| && Weight(k, cfg.RoleOf(t), s.agents[t]) == 1
  {
    assert Total(cfg, k, s.agents) == Book(k, s.mem, s.reaper, g);
    t := SumPositive(Weights(cfg, k, s.agents));
    WeightBound(k, cfg.RoleOf(t), s.agents[t]);
  }

  lemma Settled(cfg: Config, s: State, g: Trail, k: Kind)
    requires cfg.Valid() && |s.agents| == cfg.Agents() && Ledger(cfg, s, g)
    requires forall t :: 0 <= t < |s.agents| ==> Weight(k, cfg.RoleOf(t), s.agents[t]) == 0
    ensures Book(k, s.mem, s.reaper, g) == 0
  {
    assert Total(cfg, k, s.agents) == Book(k, s.mem, s.reaper, g);
    SumZero(Weights(cfg, k, s.agents));
  }

  lemma BookNonNegative(cfg: Config, s: State, g: Trail, k: Kind)
    requires cfg.Valid() && |s.agents| == cfg.Agents() && Ledger(cfg, s, g)
    ensures 0 <= Book(k, s.mem, s.reaper, g)
  {
    var ws := Weights(cfg, k, s.agents);
    assert Total(cfg, k, s.agents) == Book(k, s.mem, s.reaper, g);
    forall i | 0 <= i < |ws| ensures 0 <= ws[i] { WeightBound(k, cfg.RoleOf(i), s.agents[i]); }
    SumNonNegative(ws);
  }

  lemma TotalUpdate(cfg: Config, k: Kind, agents: seq<Agent>, t: nat, a: Agent)
    requires cfg.Valid() && |agents| == cfg.Agents() && t < |agents|
    ensures Total(cfg, k, agents[t := a])
         == Total(cfg, k, agents) - Weight(k, cfg.RoleOf(t), agents[t]) + Weight(k, cfg.RoleOf(t), a)
  {
    var ws, ws' := Weights(cfg, k, agents), Weights(cfg, k, agents[t := a]);
    assert ws' == ws[t := Weight(k, cfg.RoleOf(t), a)];
    SumUpdate(ws, t, ws'[t]);
  }
}
