/** The threads of 1.6/src from their last instruction to the release of their handle: exits, joins and
    detaches that race on a handle's `finished` and `state` words, the queue that hands detached finished
    handles over, and the one reaper that empties it. Every shared access is a step of its own, taken
    under sequentially consistent interleaving; a schedule is any sequence of actions. Allocation and
    `clone` succeed, and freeing a handle or a node is only counted, so no address is used twice. */
module Lifecycle {
  const NULL := -1

  /** The `state` word, bit by bit. */
  datatype Word = Word(detached: bool, joined: bool, reaped: bool, queued: bool)

  /** The number in the `state` word: MT_DETACHED, MT_JOINED, MT_REAPED and MT_QUEUED. */
  function Bits(w: Word): nat {
    (if w.detached then 2 else 0) + (if w.joined then 4 else 0)
    + (if w.reaped then 8 else 0) + (if w.queued then 16 else 0)
  }

  /** `freed` counts the calls of free; `waiters` are the threads asleep on the futex `finished`. */
  datatype Handle = Handle(finished: bool, word: Word, retval: nat, freed: nat, waiters: seq<nat>)

  /** A `reap_node_t`; `freed` counts the calls of free. */
  datatype Node = Node(thread: int, next: int, freed: nat)

  /** The thread of handle h on its way out, one call of `mythread_join`, or one of `mythread_detach`. */
  datatype Role = Exiter(h: int) | Joiner(h: int, wants: bool) | Detacher(h: int)

  /** Handles 0 to size - 1 have been created; `calls` are the joins and detaches made on them.
      Agent t < size is the thread of handle t, and agent size + i is call i. */
  datatype Config = Config(size: nat, calls: seq<Role>)
  {
    predicate Valid() {
      forall i :: 0 <= i < |calls| ==> !calls[i].Exiter? && NULL <= calls[i].h < size
    }
    function Agents(): nat { size + |calls| }
    function RoleOf(t: nat): (r: Role)
      requires Valid() && t < Agents()
      ensures NULL <= r.h < size
      ensures t < size <==> r.Exiter?
      ensures r.Exiter? ==> r.h == t
    {
      if t < size then Exiter(t) else calls[t - size]
    }
  }

  datatype PC =
    // thread_startup
    | Running | StoreValue | StoreFinished | WakeJoiner | LoadState
    // mythread_join, mythread_detach
    | LoadWord | TryJoin | CheckFinished | Wait | Asleep | ReadValue | MarkReaped | FreeHandle
    | TryDetach | LoadFinished
    // the hand-over: MT_QUEUED, start_reaper, reap_enqueue
    | MarkQueued | StartReaper | CloneReaper | Alloc | Lock | ReadTail | WriteHead | ReadOldTail | LinkOld
    | WriteTail | Unlock | AddCount | WakeReaper
    | Done | Crashed

  /** Both `Success` and `AlreadyDetached` return 0; `Invalid` returns -1 with EINVAL. */
  datatype Outcome = Pending | Success | AlreadyDetached | Invalid

  /** An agent's local variables: the `state` word it last read, a return value, and the old tail. */
  datatype Agent = Agent(pc: PC, s: Word, val: nat, oldTail: int, outcome: Outcome)

  datatype ReaperPC =
    | Off | CountLoad | CountWait | CountAsleep
    | QueueLock | HeadRead | HeadClear | TailClear | QueueUnlock
    | NodeRead | ReapMark | HandleFree | NodeFree | CountSub | Fault

  /** The local variables of `reaper_main` and the `reap_dequeue` it calls. */
  datatype Reaper = Reaper(pc: ReaperPC, cur: int, nxt: int, thread: int, processed: nat)

  /** Node t is the one that agent t allocates: an agent enqueues at most once. `started` is
      `reaper_started`, `cloned` says that the reaper exists, `dozing` that it sleeps on `count`. */
  datatype Memory = Memory(handles: seq<Handle>, nodes: seq<Node>, head: int, tail: int, count: int,
                           locked: bool, started: bool, cloned: bool, dozing: bool)

  datatype State = State(mem: Memory, agents: seq<Agent>, reaper: Reaper)

  datatype Move = Move(mem: Memory, a: Agent)

  /** What an agent makes of its handle and of itself. */
  datatype Touch = Touch(hd: Handle, a: Agent)

  datatype ReaperMove = ReaperMove(mem: Memory, r: Reaper)

  /** `choice` is what a start routine returns, or which sleeper a wake-up finds; `fails` lets a weak
      compare-exchange fail for no reason; Rouse and RouseReaper are spurious wake-ups. */
  datatype Action =
    | Run(t: nat, choice: nat, fails: bool) | Reap(fails: bool) | Rouse(h: nat, k: nat) | RouseReaper

  ghost predicate MemoryOk(cfg: Config, m: Memory) {
    && cfg.Valid()
    && |m.handles| == cfg.size && |m.nodes| == cfg.Agents()
    && NULL <= m.head < |m.nodes| && NULL <= m.tail < |m.nodes|
    && forall x :: 0 <= x < |m.nodes| ==> NULL <= m.nodes[x].next < |m.nodes| && NULL <= m.nodes[x].thread < cfg.size
  }

  predicate AgentInside(cfg: Config, a: Agent) {
    NULL <= a.oldTail < cfg.Agents()
  }

  predicate ReaperInside(cfg: Config, r: Reaper) {
    NULL <= r.cur < cfg.Agents() && NULL <= r.nxt < cfg.Agents() && NULL <= r.thread < cfg.size
  }

  ghost predicate WellFormed(cfg: Config, s: State) {
    && MemoryOk(cfg, s.mem)
    && |s.agents| == cfg.Agents()
    && ReaperInside(cfg, s.reaper)
    && forall t :: 0 <= t < |s.agents| ==> AgentInside(cfg, s.agents[t])
  }

  const CLEAR := Word(false, false, false, false)

  function Init(cfg: Config): (s: State)
    requires cfg.Valid()
    ensures WellFormed(cfg, s)
  {
    State(Memory(seq(cfg.size, h => Handle(false, CLEAR, 0, 0, [])),
                 seq(cfg.Agents(), t => Node(NULL, NULL, 0)),
                 NULL, NULL, 0, false, false, false, false),
          seq(cfg.Agents(), t => Agent(if t < cfg.size then Running else LoadWord, CLEAR, 0, NULL, Pending)),
          Reaper(Off, NULL, NULL, NULL, 0))
  }

  // ----- the agents

  function SetHandle(m: Memory, h: int, hd: Handle): Memory
    requires 0 <= h < |m.handles|
  {
    m.(handles := m.handles[h := hd])
  }

  /** FUTEX_WAKE of one: some waiter, if there is one. */
  function WakeOne(waiters: seq<nat>, choice: nat): seq<nat> {
    if waiters == [] then []
    else
      var k := if choice < |waiters| then choice else 0;
      waiters[..k] + waiters[k + 1..]
  }

  function Return(a: Agent, outcome: Outcome): Agent {
    a.(pc := Done, outcome := outcome)
  }

  /** `thread_startup`, up to the hand-over. */
  function ExitStep(hd: Handle, a: Agent, choice: nat): Touch {
    match a.pc
    case Running => Touch(hd, a.(pc := StoreValue, val := choice))
    case StoreValue => Touch(hd.(retval := a.val), a.(pc := StoreFinished))
    case StoreFinished => Touch(hd.(finished := true), a.(pc := WakeJoiner))
    case WakeJoiner => Touch(hd.(waiters := WakeOne(hd.waiters, choice)), a.(pc := LoadState))
    case LoadState => Touch(hd, if hd.word.detached then a.(pc := MarkQueued) else Return(a, Success))
    case MarkQueued => MarkStep(hd, a)
    case _ => Touch(hd, a)
  }

  /** The fetch_or of MT_QUEUED: only the first one goes on to hand the handle over. */
  function MarkStep(hd: Handle, a: Agent): Touch {
    Touch(hd.(word := hd.word.(queued := true)), if hd.word.queued then Return(a, Success) else a.(pc := StartReaper))
  }

  /** `mythread_join` by agent t; `wants` says that the caller passes a place for the value. */
  function JoinStep(hd: Handle, t: nat, wants: bool, a: Agent): Touch {
    match a.pc
    case LoadWord => Touch(hd, a.(pc := TryJoin, s := hd.word))
    case TryJoin =>
      if a.s.detached || a.s.joined then Touch(hd, Return(a, Invalid))
      else if hd.word == a.s then Touch(hd.(word := a.s.(joined := true)), a.(pc := CheckFinished))
      else Touch(hd, a.(s := hd.word))
    case CheckFinished => Touch(hd, a.(pc := if hd.finished then ReadValue else Wait))
    case Wait =>
      if hd.finished then Touch(hd, a.(pc := CheckFinished))
      else Touch(hd.(waiters := hd.waiters + [t]), a.(pc := Asleep))
    case Asleep => Touch(hd, if t in hd.waiters then a else a.(pc := CheckFinished))
    case ReadValue => Touch(hd, a.(pc := MarkReaped, val := if wants then hd.retval else a.val))
    case MarkReaped =>
      Touch(hd.(word := hd.word.(reaped := true)), if hd.word.reaped then Return(a, Success) else a.(pc := FreeHandle))
    case FreeHandle => Touch(hd.(freed := hd.freed + 1), Return(a, Success))
    case _ => Touch(hd, a)
  }

  /** `mythread_detach`, up to the hand-over. */
  function DetachStep(hd: Handle, a: Agent, fails: bool): Touch {
    match a.pc
    case LoadWord => Touch(hd, a.(pc := TryDetach, s := hd.word))
    case TryDetach =>
      if a.s.detached then Touch(hd, Return(a, AlreadyDetached))
      else if a.s.joined then Touch(hd, Return(a, Invalid))
      else if hd.word == a.s && !fails then Touch(hd.(word := a.s.(detached := true)), a.(pc := LoadFinished))
      else Touch(hd, a.(s := hd.word))
    case LoadFinished => Touch(hd, if hd.finished then a.(pc := MarkQueued) else Return(a, Success))
    case MarkQueued => MarkStep(hd, a)
    case _ => Touch(hd, a)
  }

  function OwnStep(hd: Handle, t: nat, role: Role, a: Agent, choice: nat, fails: bool): Touch {
    match role
    case Exiter(_) => ExitStep(hd, a, choice)
    case Joiner(_, wants) => JoinStep(hd, t, wants, a)
    case Detacher(_) => DetachStep(hd, a, fails)
  }

  /** Is an agent at `start_reaper` or in `reap_enqueue`? */
  predicate HandingOver(pc: PC) {
    Unlinked(pc) || Uncounted(pc) || pc.WakeReaper?
  }

  predicate Unlinked(pc: PC) {
    || pc.StartReaper? || pc.CloneReaper? || pc.Alloc? || pc.Lock?
    || pc.ReadTail? || pc.WriteHead? || pc.ReadOldTail? || pc.LinkOld?
  }

  predicate Uncounted(pc: PC) {
    pc.WriteTail? || pc.Unlock? || pc.AddCount?
  }

  /** `start_reaper` and `reap_enqueue` of handle h, on behalf of an exit or of a detach. */
  function HandOverStep(cfg: Config, m: Memory, t: nat, h: int, a: Agent, fails: bool): (r: Move)
    requires MemoryOk(cfg, m) && AgentInside(cfg, a) && t < cfg.Agents() && 0 <= h < cfg.size
    ensures MemoryOk(cfg, r.mem) && AgentInside(cfg, r.a)
  {
    match a.pc
    case StartReaper =>
      if m.started then Move(m, a.(pc := Alloc)) else Move(m.(started := true), a.(pc := CloneReaper))
    case CloneReaper => Move(m.(cloned := true), a.(pc := Alloc))
    case Alloc => Move(m.(nodes := m.nodes[t := Node(h, NULL, 0)]), a.(pc := Lock))
    case Lock => if m.locked || fails then Move(m, a) else Move(m.(locked := true), a.(pc := ReadTail))
    case ReadTail => Move(m, a.(pc := if m.tail == NULL then WriteHead else ReadOldTail))
    case WriteHead => Move(m.(head := t), a.(pc := WriteTail))
    case ReadOldTail => Move(m, a.(pc := LinkOld, oldTail := m.tail))
    case LinkOld =>
      if a.oldTail == NULL then Move(m, a.(pc := Crashed))
      else Move(m.(nodes := m.nodes[a.oldTail := m.nodes[a.oldTail].(next := t)]), a.(pc := WriteTail))
    case WriteTail => Move(m.(tail := t), a.(pc := Unlock))
    case Unlock => Move(m.(locked := false), a.(pc := AddCount))
    case AddCount =>
      Move(m.(count := m.count + 1), if m.count == 0 then a.(pc := WakeReaper) else Return(a, Success))
    case WakeReaper => Move(m.(dozing := false), Return(a, Success))
    case _ => Move(m, a)
  }

  /** A call on a null handle returns EINVAL at once. */
  function AgentStep(cfg: Config, m: Memory, t: nat, a: Agent, choice: nat, fails: bool): (r: Move)
    requires MemoryOk(cfg, m) && AgentInside(cfg, a) && t < cfg.Agents()
    ensures MemoryOk(cfg, r.mem) && AgentInside(cfg, r.a)
  {
    var role := cfg.RoleOf(t);
    if role.h == NULL then Move(m, Return(a, Invalid))
    else if HandingOver(a.pc) then HandOverStep(cfg, m, t, role.h, a, fails)
    else
      var o := OwnStep(m.handles[role.h], t, role, a, choice, fails);
      Move(SetHandle(m, role.h, o.hd), o.a)
  }

  // ----- the reaper

  /** `reap_dequeue`. */
  function DequeueStep(cfg: Config, m: Memory, r: Reaper, fails: bool): (o: ReaperMove)
    requires MemoryOk(cfg, m) && ReaperInside(cfg, r)
    ensures MemoryOk(cfg, o.mem) && ReaperInside(cfg, o.r)
  {
    match r.pc
    case QueueLock =>
      if m.locked || fails then ReaperMove(m, r) else ReaperMove(m.(locked := true), r.(pc := HeadRead))
    case HeadRead => ReaperMove(m, r.(cur := m.head, pc := if m.head == NULL then QueueUnlock else HeadClear))
    case HeadClear => ReaperMove(m.(head := NULL), r.(pc := TailClear))
    case TailClear => ReaperMove(m.(tail := NULL), r.(pc := QueueUnlock))
    case QueueUnlock =>
      ReaperMove(m.(locked := false), if r.cur == NULL then r.(pc := CountLoad) else r.(pc := NodeRead, processed := 0))
    case _ => ReaperMove(m, r)
  }

  /** What the reaper does to the handle of the node it is at: mark it reaped, and free it unless it was. */
  function ReapStep(hd: Handle, pc: ReaperPC): Handle {
    if pc.ReapMark? then hd.(word := hd.word.(reaped := true))
    else if pc.HandleFree? then hd.(freed := hd.freed + 1)
    else hd
  }

  /** The loop over the nodes that have been taken. */
  function WalkStep(cfg: Config, m: Memory, r: Reaper): (o: ReaperMove)
    requires MemoryOk(cfg, m) && ReaperInside(cfg, r)
    ensures MemoryOk(cfg, o.mem) && ReaperInside(cfg, o.r)
  {
    match r.pc
    case NodeRead =>
      if r.cur == NULL then ReaperMove(m, r.(pc := Fault))
      else ReaperMove(m, r.(pc := ReapMark, nxt := m.nodes[r.cur].next, thread := m.nodes[r.cur].thread))
    case ReapMark | HandleFree =>
      if r.thread == NULL then ReaperMove(m, r.(pc := Fault))
      else
        var hd := m.handles[r.thread];
        var frees := r.pc.ReapMark? && !hd.word.reaped;
        ReaperMove(SetHandle(m, r.thread, ReapStep(hd, r.pc)), r.(pc := if frees then HandleFree else NodeFree))
    case NodeFree =>
      if r.cur == NULL then ReaperMove(m, r.(pc := Fault))
      else
        ReaperMove(m.(nodes := m.nodes[r.cur := m.nodes[r.cur].(freed := m.nodes[r.cur].freed + 1)]),
                   r.(pc := if r.nxt == NULL then CountSub else NodeRead, cur := r.nxt, processed := r.processed + 1))
    case _ => ReaperMove(m, r)
  }

  /** Is the reaper inside `reap_dequeue`? */
  predicate Dequeuing(r: Reaper) {
    r.pc.QueueLock? || r.pc.HeadRead? || r.pc.HeadClear? || r.pc.TailClear? || r.pc.QueueUnlock?
  }

  /** `reaper_main`. */
  function ReaperStep(cfg: Config, m: Memory, r: Reaper, fails: bool): (o: ReaperMove)
    requires MemoryOk(cfg, m) && ReaperInside(cfg, r)
    ensures MemoryOk(cfg, o.mem) && ReaperInside(cfg, o.r)
  {
    if r.pc.Off? then ReaperMove(m, if m.cloned then r.(pc := CountLoad) else r)
    else if r.pc.CountLoad? then ReaperMove(m, r.(pc := if m.count == 0 then CountWait else QueueLock))
    else if r.pc.CountWait? then
      if m.count == 0 then ReaperMove(m.(dozing := true), r.(pc := CountAsleep))
      else ReaperMove(m, r.(pc := CountLoad))
    else if r.pc.CountAsleep? then ReaperMove(m, if m.dozing then r else r.(pc := CountLoad))
    else if r.pc.CountSub? then
      ReaperMove(m.(count := m.count - r.processed), r.(pc := CountLoad, processed := 0))
    else if Dequeuing(r) then DequeueStep(cfg, m, r, fails)
    else WalkStep(cfg, m, r)
  }

  // ----- runs

  function Step(cfg: Config, s: State, act: Action): (s': State)
    requires WellFormed(cfg, s)
    ensures WellFormed(cfg, s')
  {
    match act
    case Run(t, choice, fails) =>
      if |s.agents| <= t then s
      else
        var o := AgentStep(cfg, s.mem, t, s.agents[t], choice, fails);
        State(o.mem, s.agents[t := o.a], s.reaper)
    case Reap(fails) =>
      var o := ReaperStep(cfg, s.mem, s.reaper, fails);
      State(o.mem, s.agents, o.r)
    case Rouse(h, k) =>
      if |s.mem.handles| <= h then s
      else
        var hd := s.mem.handles[h];
        s.(mem := SetHandle(s.mem, h, hd.(waiters := WakeOne(hd.waiters, k))))
    case RouseReaper => s.(mem := s.mem.(dozing := false))
  }

  /** The state after a schedule, from the creation of the handles on. */
  function Exec(cfg: Config, acts: seq<Action>): (s: State)
    requires cfg.Valid()
    ensures WellFormed(cfg, s)
  {
    if acts == [] then Init(cfg) else Step(cfg, Exec(cfg, acts[..|acts| - 1]), acts[|acts| - 1])
  }

  /** What a run has put into the queue: `ids` are the nodes in the order in which they were linked and
      `handles` the handles in them; the first `taken` of them have left the shared list, and the reaper
      is through with the first `done`. */
  datatype Trail = Trail(ids: seq<nat>, handles: seq<nat>, taken: nat, done: nat)

  /** A node is linked by the first of its two writes; clearing `head` takes the whole list. */
  predicate Links(a: Agent) {
    a.pc.WriteHead? || (a.pc.LinkOld? && a.oldTail != NULL)
  }

  function AgentTrail(g: Trail, t: nat, h: int, a: Agent): Trail {
    if Links(a) && 0 <= h then g.(ids := g.ids + [t], handles := g.handles + [h]) else g
  }

  function ReaperTrail(g: Trail, r: Reaper): Trail {
    if r.pc.HeadClear? then g.(taken := |g.ids|)
    else if r.pc.NodeFree? && r.cur != NULL then g.(done := g.done + 1)
    else g
  }

  function NextTrail(cfg: Config, s: State, g: Trail, act: Action): Trail
    requires WellFormed(cfg, s)
  {
    if act.Run? && act.t < |s.agents| then AgentTrail(g, act.t, cfg.RoleOf(act.t).h, s.agents[act.t])
    else if act.Reap? then ReaperTrail(g, s.reaper)
    else g
  }

  /** The trail of a schedule. It follows the run and never influences it. */
  function History(cfg: Config, acts: seq<Action>): Trail
    requires cfg.Valid()
  {
    if acts == [] then Trail([], [], 0, 0)
    else
      var before := acts[..|acts| - 1];
      NextTrail(cfg, Exec(cfg, before), History(cfg, before), acts[|acts| - 1])
  }
}
