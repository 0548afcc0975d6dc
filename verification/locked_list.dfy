/** The program of 2.3/src: searchers and swappers walking one linked list hand over hand.
    Every shared access (lock, unlock, read or write of a `next`, counter update, test of
    `is_running`) is a step of its own. A schedule is any sequence of actions; a lock that
    is not granted leaves the state as it is. `shared` selects the rwlock build, in which
    searchers take their locks shared; otherwise all locks are exclusive. */
module LockedList {
  import opened ListOps
  import opened Traversals

  const NULL := -1

  datatype LockWord = Free | Exclusive(owner: nat) | Shared(holders: set<nat>)

  datatype Role = Searcher(f: Flavor) | Swapper(f: Flavor)

  /** Node 0 is `first`; `lens[x]` is the length of node x's string. */
  datatype Config = Config(lens: seq<nat>, shared: bool, roles: seq<Role>)
  {
    /** The storage size. */
    function Size(): int { |lens| - 1 }
    predicate Valid() { 2 <= |lens| }
    /** Does thread t take its locks shared? */
    predicate Shares(t: nat) { shared && t < |roles| && roles[t].Searcher? }
  }

  datatype PC =
    | Start | Idle | Done | LockFirst
    // search_pairs
    | ReadA | EmptyUnlock | EmptyCount | LockA | UnlockFirst | ReadB | LockB | CompareAB | UnlockA
    | UnlockLast | AddPairs | AddIter
    // swap_pairs
    | Choose | ReadCur | EmptyBail | LockCur | Walk | WalkLock | WalkUnlock | ReadRight | BailCur | BailPrev
    | LockRight | CompareLR | Write1 | Write2 | Write3 | AddSwap | UnlockNext | UnlockCur | UnlockPrev

  /** A thread's local variables. A searcher's `a` and `b` are `cur` and `nxt`. */
  datatype Thread = Thread(pc: PC, prev: int, cur: int, nxt: int, i: nat, left: nat, pairs: nat)

  datatype Counter = Iterations(f: Flavor) | PairCount(f: Flavor) | Swaps(f: Flavor)

  /** A counter that is not in the map still has its static initial value. */
  function Value(m: map<Counter, int>, k: Counter): int {
    if k in m then m[k] else 0
  }

  function Bump(m: map<Counter, int>, k: Counter, amount: int): map<Counter, int> {
    m[k := Value(m, k) + amount]
  }

  /** What the threads share. */
  datatype Memory = Memory(next: seq<int>, locks: seq<LockWord>, running: bool, counters: map<Counter, int>)

  datatype State = State(mem: Memory, threads: seq<Thread>)

  /** What one thread makes of the memory and of itself in one step. */
  datatype Move = Move(mem: Memory, th: Thread)

  /** `choice` is what `rand_r` returns if the step draws an index. */
  datatype Action = Stop | Run(t: nat, choice: nat)

  /** No dangling pointers. */
  ghost predicate MemoryOk(cfg: Config, m: Memory) {
    && cfg.Valid()
    && |m.next| == |m.locks| == |cfg.lens|
    && (forall x :: 0 <= x < |m.next| ==> NULL <= m.next[x] < |cfg.lens|)
  }

  predicate PointsInside(cfg: Config, th: Thread) {
    0 <= th.prev < |cfg.lens| && 0 <= th.cur < |cfg.lens| && 0 <= th.nxt < |cfg.lens|
  }

  ghost predicate WellFormed(cfg: Config, s: State) {
    && MemoryOk(cfg, s.mem)
    && |s.threads| == |cfg.roles|
    && forall t :: 0 <= t < |s.threads| ==> PointsInside(cfg, s.threads[t])
  }

  function Init(cfg: Config): (s: State)
    requires cfg.Valid()
    ensures WellFormed(cfg, s)
  {
    State(Memory(seq(|cfg.lens|, i => if i + 1 < |cfg.lens| then i + 1 else NULL),
                 seq(|cfg.lens|, i => Free), true, map[]),
          seq(|cfg.roles|, i => Thread(Start, 0, 0, 0, 0, 0, 0)))
  }

  // ----- locks

  predicate CanTake(l: LockWord, shares: bool) {
    l.Free? || (shares && l.Shared?)
  }

  function Taken(l: LockWord, t: nat, shares: bool): LockWord {
    if !shares then Exclusive(t) else if l.Shared? then Shared(l.holders + {t}) else Shared({t})
  }

  function Released(l: LockWord, t: nat): LockWord {
    if l.Shared? && l.holders - {t} != {} then Shared(l.holders - {t}) else Free
  }

  /** Lock node x and go on as th', or stay blocked. */
  function Acquire(cfg: Config, m: Memory, t: nat, x: int, th: Thread, th': Thread): Move
    requires 0 <= x < |m.locks|
  {
    if CanTake(m.locks[x], cfg.Shares(t))
    then Move(m.(locks := m.locks[x := Taken(m.locks[x], t, cfg.Shares(t))]), th')
    else Move(m, th)
  }

  function Release(m: Memory, t: nat, x: int, th': Thread): Move
    requires 0 <= x < |m.locks|
  {
    Move(m.(locks := m.locks[x := Released(m.locks[x], t)]), th')
  }

  // ----- the two loops

  /** One step of `pair_searcher_*` and the `search_pairs` it calls. */
  function SearcherStep(cfg: Config, m: Memory, t: nat, th: Thread, f: Flavor): (r: Move)
    requires MemoryOk(cfg, m) && PointsInside(cfg, th)
    ensures MemoryOk(cfg, r.mem) && PointsInside(cfg, r.th)
  {
    match th.pc
    case Start => Move(m, th.(pc := if cfg.Size() < 2 then Done else Idle))
    case Idle => Move(m, th.(pc := if m.running then LockFirst else Done))
    case LockFirst => Acquire(cfg, m, t, 0, th, th.(pc := ReadA))
    case ReadA =>
      if m.next[0] == NULL then Move(m, th.(pc := EmptyUnlock))
      else Move(m, th.(pc := LockA, cur := m.next[0]))
    case EmptyUnlock => Release(m, t, 0, th.(pc := EmptyCount))
    case EmptyCount => Move(m.(counters := Bump(m.counters, Iterations(f), 1)), th.(pc := Idle))
    case LockA => Acquire(cfg, m, t, th.cur, th, th.(pc := UnlockFirst))
    case UnlockFirst => Release(m, t, 0, th.(pc := ReadB, pairs := 0))
    case ReadB =>
      if m.next[th.cur] == NULL then Move(m, th.(pc := UnlockLast))
      else Move(m, th.(pc := LockB, nxt := m.next[th.cur]))
    case LockB => Acquire(cfg, m, t, th.nxt, th, th.(pc := CompareAB))
    case CompareAB =>
      var hit := Hit(f, Len(cfg.lens, th.cur), Len(cfg.lens, th.nxt));
      Move(m, th.(pc := UnlockA, pairs := if hit then th.pairs + 1 else th.pairs))
    case UnlockA => Release(m, t, th.cur, th.(pc := ReadB, cur := th.nxt))
    case UnlockLast => Release(m, t, th.cur, th.(pc := AddPairs))
    case AddPairs =>
      if th.pairs == 0 then Move(m, th.(pc := AddIter))
      else Move(m.(counters := Bump(m.counters, PairCount(f), th.pairs)), th.(pc := AddIter))
    case AddIter => Move(m.(counters := Bump(m.counters, Iterations(f), 1)), th.(pc := Idle))
    case _ => Move(m, th)
  }

  /** One step of `swapper_*`, the `swap_pairs` it calls and the `swap_nodes` that calls. */
  function SwapperStep(cfg: Config, m: Memory, t: nat, th: Thread, f: Flavor, choice: nat): (r: Move)
    requires MemoryOk(cfg, m) && PointsInside(cfg, th)
    ensures MemoryOk(cfg, r.mem) && PointsInside(cfg, r.th)
  {
    match th.pc
    case Start => Move(m, th.(pc := if cfg.Size() < 2 then Done else Idle))
    case Idle => Move(m, th.(pc := if m.running then Choose else Done))
    case Choose =>
      // the modulus is 0 only for lists that `Start` turns away
      var left := if cfg.Size() < 2 then 0 else choice % (cfg.Size() - 1);
      Move(m, th.(pc := LockFirst, left := left, prev := 0))
    case LockFirst => Acquire(cfg, m, t, th.prev, th, th.(pc := ReadCur))
    case ReadCur =>
      if m.next[th.prev] == NULL then Move(m, th.(pc := EmptyBail))
      else Move(m, th.(pc := LockCur, cur := m.next[th.prev]))
    case EmptyBail => Release(m, t, th.prev, th.(pc := Idle))
    case LockCur => Acquire(cfg, m, t, th.cur, th, th.(pc := Walk, i := 0))
    case Walk =>
      if th.i < th.left && m.next[th.cur] != NULL
      then Move(m, th.(pc := WalkLock, nxt := m.next[th.cur]))
      else Move(m, th.(pc := ReadRight))
    case WalkLock => Acquire(cfg, m, t, th.nxt, th, th.(pc := WalkUnlock))
    case WalkUnlock => Release(m, t, th.prev, th.(pc := Walk, prev := th.cur, cur := th.nxt, i := th.i + 1))
    case ReadRight =>
      if m.next[th.cur] == NULL then Move(m, th.(pc := BailCur))
      else Move(m, th.(pc := LockRight, nxt := m.next[th.cur]))
    case BailCur => Release(m, t, th.cur, th.(pc := BailPrev))
    case BailPrev => Release(m, t, th.prev, th.(pc := Idle))
    case LockRight => Acquire(cfg, m, t, th.nxt, th, th.(pc := CompareLR))
    case CompareLR =>
      var wants := Wants(f, Len(cfg.lens, th.cur), Len(cfg.lens, th.nxt));
      Move(m, th.(pc := if wants then Write1 else UnlockNext))
    case Write1 => Move(m.(next := m.next[th.prev := th.nxt]), th.(pc := Write2))
    case Write2 => Move(m.(next := m.next[th.cur := m.next[th.nxt]]), th.(pc := Write3))
    case Write3 => Move(m.(next := m.next[th.nxt := th.cur]), th.(pc := AddSwap))
    case AddSwap => Move(m.(counters := Bump(m.counters, Swaps(f), 1)), th.(pc := UnlockNext))
    case UnlockNext => Release(m, t, th.nxt, th.(pc := UnlockCur))
    case UnlockCur => Release(m, t, th.cur, th.(pc := UnlockPrev))
    case UnlockPrev => Release(m, t, th.prev, th.(pc := Idle))
    case _ => Move(m, th)
  }

  function ThreadStep(cfg: Config, m: Memory, t: nat, th: Thread, choice: nat): (r: Move)
    requires MemoryOk(cfg, m) && PointsInside(cfg, th) && t < |cfg.roles|
    ensures MemoryOk(cfg, r.mem) && PointsInside(cfg, r.th)
  {
    match cfg.roles[t]
    case Searcher(f) => SearcherStep(cfg, m, t, th, f)
    case Swapper(f) => SwapperStep(cfg, m, t, th, f, choice)
  }

  function Step(cfg: Config, s: State, a: Action): (s': State)
    requires WellFormed(cfg, s)
    ensures WellFormed(cfg, s')
  {
    if a.Stop? then s.(mem := s.mem.(running := false))
    else if |s.threads| <= a.t then s
    else
      var r := ThreadStep(cfg, s.mem, a.t, s.threads[a.t], a.choice);
      State(r.mem, s.threads[a.t := r.th])
  }

  /** The state after a schedule, from `storage_init` on. */
  function Exec(cfg: Config, acts: seq<Action>): (s: State)
    requires cfg.Valid()
    ensures WellFormed(cfg, s)
  {
    if acts == [] then Init(cfg) else Step(cfg, Exec(cfg, acts[..|acts| - 1]), acts[|acts| - 1])
  }

  /** What a searcher's step means for the order of the operations: which lock it takes or gives back. */
  function SearcherEvent(cfg: Config, m: Memory, t: nat, th: Thread, f: Flavor): Event
    requires MemoryOk(cfg, m) && PointsInside(cfg, th)
  {
    match th.pc
    case LockFirst => if CanTake(m.locks[0], cfg.Shares(t)) then Enter(t, Search(f)) else Quiet
    case LockA => if CanTake(m.locks[th.cur], cfg.Shares(t)) then Grab(t, th.cur) else Quiet
    case UnlockFirst => Drop(t)
    case LockB => if CanTake(m.locks[th.nxt], cfg.Shares(t)) then Grab(t, th.nxt) else Quiet
    case UnlockA => Drop(t)
    case UnlockLast => Leave(t)
    case _ => Quiet
  }

  /** The same for a swapper; its exchange counts as made at the first write, or when it is declined. */
  function SwapperEvent(cfg: Config, m: Memory, t: nat, th: Thread, f: Flavor): Event
    requires MemoryOk(cfg, m) && PointsInside(cfg, th)
  {
    match th.pc
    case LockFirst => if CanTake(m.locks[th.prev], cfg.Shares(t)) then Enter(t, Swap(f, th.left)) else Quiet
    case LockCur => if CanTake(m.locks[th.cur], cfg.Shares(t)) then Grab(t, th.cur) else Quiet
    case WalkLock => if CanTake(m.locks[th.nxt], cfg.Shares(t)) then Grab(t, th.nxt) else Quiet
    case WalkUnlock => Drop(t)
    case LockRight => if CanTake(m.locks[th.nxt], cfg.Shares(t)) then Grab(t, th.nxt) else Quiet
    case CompareLR => if Wants(f, Len(cfg.lens, th.cur), Len(cfg.lens, th.nxt)) then Quiet else Exchange(t)
    case Write1 => Exchange(t)
    case UnlockPrev => Leave(t)
    case _ => Quiet
  }

  function ThreadEvent(cfg: Config, m: Memory, t: nat, th: Thread): Event
    requires MemoryOk(cfg, m) && PointsInside(cfg, th) && t < |cfg.roles|
  {
    match cfg.roles[t]
    case Searcher(f) => SearcherEvent(cfg, m, t, th, f)
    case Swapper(f) => SwapperEvent(cfg, m, t, th, f)
  }

  function EventOf(cfg: Config, s: State, a: Action): Event
    requires WellFormed(cfg, s)
  {
    if a.Stop? || |s.threads| <= a.t then Quiet else ThreadEvent(cfg, s.mem, a.t, s.threads[a.t])
  }

  /** The history of a schedule: head-lock order, serial list, and where every operation stands.
      It follows the run and never influences it. */
  function History(cfg: Config, acts: seq<Action>): Shadow
    requires cfg.Valid()
  {
    if acts == [] then Shadow(Fresh(cfg.Size()), Fresh(cfg.Size()), [], seq(|cfg.roles|, i => Out))
    else
      var before := acts[..|acts| - 1];
      Advance(cfg.lens, History(cfg, before), EventOf(cfg, Exec(cfg, before), acts[|acts| - 1]))
  }

  // ----- running the logged operations one at a time

  /** What `op`, run alone on `l`, adds to counter k. */
  function Earns(lens: seq<nat>, op: Op, l: seq<nat>, k: Counter): int {
    match k
    case Iterations(f) => if op == Search(f) then 1 else 0
    case PairCount(f) => if op == Search(f) then Pairs(lens, f, l) else 0
    case Swaps(f) => if op.Swap? && op.f == f && Fires(lens, op, l) then 1 else 0
  }

  /** Counter k after running `log` one operation at a time. */
  function SerialCount(lens: seq<nat>, l0: seq<nat>, log: seq<Op>, k: Counter): int {
    if log == [] then 0
    else
      var before := log[..|log| - 1];
      SerialCount(lens, l0, before, k) + Earns(lens, log[|log| - 1], Serial(lens, l0, before), k)
  }

  /** What comes after index i of l. */
  function Succ(l: seq<nat>, i: nat): int {
    if i + 1 < |l| then l[i + 1] else NULL
  }

  /** Following `next` from `first` spells exactly l. */
  ghost predicate Spells(next: seq<int>, l: seq<nat>) {
    && |l| == |next|
    && 0 < |l| && l[0] == 0
    && forall i :: 0 <= i < |l| ==> l[i] < |next| && next[l[i]] == Succ(l, i)
  }
}
