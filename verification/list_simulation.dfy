/** The program keeps to the hand-over-hand discipline of `Traversals`: in every reachable
    state the pointers, lock words, local variables and counters agree with the history. */
module ListSimulation {
  import opened ListOps
  import opened Sums
  import opened Traversals
  import opened LockedList

  // ----- lock words

  /** The nodes a thread has locked, by its place in the code. */
  function Held(th: Thread): set<int> {
    match th.pc
    case ReadA | LockA | EmptyUnlock => {0}
    case UnlockFirst => {0, th.cur}
    case ReadB | LockB | UnlockLast => {th.cur}
    case CompareAB | UnlockA => {th.cur, th.nxt}
    case ReadCur | LockCur | EmptyBail | BailPrev | UnlockPrev => {th.prev}
    case Walk | WalkLock | ReadRight | LockRight | BailCur | UnlockCur => {th.prev, th.cur}
    case WalkUnlock | CompareLR | Write1 | Write2 | Write3 | AddSwap | UnlockNext => {th.prev, th.cur, th.nxt}
    case _ => {}
  }

  predicate Owns(l: LockWord, t: nat) {
    match l
    case Free => false
    case Exclusive(o) => o == t
    case Shared(hs) => t in hs
  }

  ghost predicate LockKind(cfg: Config, l: LockWord) {
    match l
    case Free => true
    case Exclusive(o) => o < |cfg.roles| && !cfg.Shares(o)
    case Shared(hs) => hs != {} && forall u :: u in hs ==> u < |cfg.roles| && cfg.Shares(u)
  }

  ghost predicate LocksMatch(cfg: Config, s: State) {
    && |s.threads| == |cfg.roles|
    && (forall x :: 0 <= x < |s.mem.locks| ==> LockKind(cfg, s.mem.locks[x]))
    && (forall x, t :: 0 <= x < |s.mem.locks| && 0 <= t < |s.threads| ==>
          (Owns(s.mem.locks[x], t) <==> x in Held(s.threads[t])))
  }

  // ----- local variables

  ghost predicate InAs(w: Walker, op: Op, low: nat, high: nat, l: seq<nat>) {
    w.In? && w.op == op && w.low == low && w.high == high && |w.snap| == |l| && high < |l|
  }

  ghost predicate SearcherTracks(lens: seq<nat>, l: seq<nat>, f: Flavor, th: Thread, w: Walker) {
    match th.pc
    case Start | Done => !w.In?
    case Idle | LockFirst => !w.In? && 3 <= |l|
    case ReadA => InAs(w, Search(f), 0, 0, l) && 3 <= |l|
    case LockA => InAs(w, Search(f), 0, 0, l) && 3 <= |l| && th.cur == l[1]
    case UnlockFirst => InAs(w, Search(f), 0, 1, l) && 3 <= |l| && th.cur == l[1]
    case ReadB =>
      && 3 <= |l| && w.In? && 1 <= w.low && InAs(w, Search(f), w.low, w.low, l)
      && th.cur == l[w.low] && th.pairs == PairsUpTo(lens, f, w.snap, w.low)
    case LockB =>
      && 3 <= |l| && w.In? && 1 <= w.low && InAs(w, Search(f), w.low, w.low, l) && w.low + 1 < |l|
      && th.cur == l[w.low] && th.nxt == l[w.low + 1] && th.pairs == PairsUpTo(lens, f, w.snap, w.low)
    case CompareAB =>
      && 3 <= |l| && w.In? && 1 <= w.low && InAs(w, Search(f), w.low, w.low + 1, l)
      && th.cur == l[w.low] && th.nxt == l[w.low + 1] && th.pairs == PairsUpTo(lens, f, w.snap, w.low)
    case UnlockA =>
      && 3 <= |l| && w.In? && 1 <= w.low && InAs(w, Search(f), w.low, w.low + 1, l)
      && th.cur == l[w.low] && th.nxt == l[w.low + 1] && th.pairs == PairsUpTo(lens, f, w.snap, w.low + 1)
    case UnlockLast =>
      && 3 <= |l| && InAs(w, Search(f), |l| - 1, |l| - 1, l)
      && th.cur == l[|l| - 1] && th.pairs == PairsUpTo(lens, f, w.snap, |l| - 1)
    case AddPairs | AddIter =>
      && 3 <= |l| && w.Past? && w.op == Search(f) && th.pairs == Pairs(lens, f, w.snap)
    case _ => false
  }

  ghost predicate SwapperTracks(lens: seq<nat>, l: seq<nat>, f: Flavor, th: Thread, w: Walker) {
    var op := Swap(f, th.left);
    match th.pc
    case Start | Done => !w.In?
    case Idle | Choose => !w.In? && 3 <= |l|
    case LockFirst => !w.In? && th.left + 2 < |l| && th.prev == l[0]
    case ReadCur => InAs(w, op, 0, 0, l) && w.pending && th.left + 2 < |l| && th.prev == l[0]
    case LockCur =>
      && InAs(w, op, 0, 0, l) && w.pending && th.left + 2 < |l|
      && th.prev == l[0] && th.cur == l[1]
    case Walk =>
      && InAs(w, op, th.i, th.i + 1, l) && w.pending && th.left + 2 < |l| && th.i <= th.left
      && th.prev == l[th.i] && th.cur == l[th.i + 1]
    case WalkLock =>
      && InAs(w, op, th.i, th.i + 1, l) && w.pending && th.left + 2 < |l| && th.i < th.left
      && th.prev == l[th.i] && th.cur == l[th.i + 1] && th.nxt == l[th.i + 2]
    case WalkUnlock =>
      && InAs(w, op, th.i, th.i + 2, l) && w.pending && th.left + 2 < |l| && th.i < th.left
      && th.prev == l[th.i] && th.cur == l[th.i + 1] && th.nxt == l[th.i + 2]
    case ReadRight =>
      && InAs(w, op, th.left, th.left + 1, l) && w.pending && th.left + 2 < |l|
      && th.prev == l[th.left] && th.cur == l[th.left + 1]
    case LockRight =>
      && InAs(w, op, th.left, th.left + 1, l) && w.pending && th.left + 2 < |l|
      && th.prev == l[th.left] && th.cur == l[th.left + 1] && th.nxt == l[th.left + 2]
    case CompareLR =>
      && InAs(w, op, th.left, th.left + 2, l) && w.pending
      && th.prev == l[th.left] && th.cur == l[th.left + 1] && th.nxt == l[th.left + 2]
    case Write1 =>
      && InAs(w, op, th.left, th.left + 2, l) && w.pending
      && th.prev == l[th.left] && th.cur == l[th.left + 1] && th.nxt == l[th.left + 2]
      && Wants(f, Len(lens, th.cur), Len(lens, th.nxt))
    case Write2 | Write3 | AddSwap =>
      && InAs(w, op, th.left, th.left + 2, l) && !w.pending && Fires(lens, op, w.snap)
      && th.prev == l[th.left] && th.nxt == l[th.left + 1] && th.cur == l[th.left + 2]
    case UnlockNext =>
      && InAs(w, op, th.left, th.left + 2, l) && !w.pending
      && th.prev == l[th.left] && {th.cur, th.nxt} == {l[th.left + 1] as int, l[th.left + 2]}
    case UnlockCur =>
      && InAs(w, op, th.left, th.left + 2, l) && !w.pending
      && th.prev == l[th.left] && th.cur in {l[th.left + 1] as int, l[th.left + 2]}
    case UnlockPrev =>
      && InAs(w, op, th.left, th.left + 2, l) && !w.pending && th.prev == l[th.left]
    case _ => false
  }

  ghost predicate Tracks(lens: seq<nat>, l: seq<nat>, role: Role, th: Thread, w: Walker) {
    match role
    case Searcher(f) => SearcherTracks(lens, l, f, th, w)
    case Swapper(f) => SwapperTracks(lens, l, f, th, w)
  }

  ghost predicate AllTrack(cfg: Config, s: State, g: Shadow) {
    && |s.threads| == |cfg.roles| == |g.walkers| && |g.order| == |cfg.lens|
    && forall t {:trigger Tracks(cfg.lens, g.order, cfg.roles[t], s.threads[t], g.walkers[t])} ::
         0 <= t < |s.threads| ==> Tracks(cfg.lens, g.order, cfg.roles[t], s.threads[t], g.walkers[t])
  }

  // ----- pointers

  /** Is the `next` of the node at index i awaiting one of the writes of th's exchange? */
  predicate Torn(th: Thread, i: nat) {
    match th.pc
    case Write2 => i == th.left + 1 || i == th.left + 2
    case Write3 => i == th.left + 1
    case _ => false
  }

  ghost predicate Mended(s: State, i: nat) {
    forall t :: 0 <= t < |s.threads| ==> !Torn(s.threads[t], i)
  }

  /** The heap spells the order, but for the links that an exchange under way has still to write. */
  ghost predicate Chained(s: State, l: seq<nat>) {
    && |s.mem.next| == |l|
    && (forall i :: 0 <= i < |l| ==> l[i] < |l|)
    && (forall i :: 0 <= i < |l| && Mended(s, i) ==> s.mem.next[l[i]] == Succ(l, i))
    && (forall t :: 0 <= t < |s.threads| ==> TailKept(s, l, s.threads[t]))
  }

  /** Until the second write, the link to the rest of the list is in the right node. */
  ghost predicate TailKept(s: State, l: seq<nat>, th: Thread) {
    th.pc == Write2 ==> 0 <= th.nxt < |s.mem.next| && s.mem.next[th.nxt] == Succ(l, th.left + 2)
  }

  // ----- counters

  /** What thread th still has to add to counter k for the operation it is in. */
  function Debt(lens: seq<nat>, th: Thread, w: Walker, k: Counter): int {
    if w.Past? && th.pc == AddPairs then Earns(lens, w.op, w.snap, k)
    else if w.Past? && th.pc == AddIter then (if k.Iterations? then Earns(lens, w.op, w.snap, k) else 0)
    else if w.In? && (w.op.Search? || w.pending || th.pc == Write2 || th.pc == Write3 || th.pc == AddSwap)
      then Earns(lens, w.op, w.snap, k)
    else 0
  }

  function Debts(lens: seq<nat>, threads: seq<Thread>, walkers: seq<Walker>, k: Counter): seq<int>
    requires |threads| == |walkers|
  {
    seq(|threads|, t requires 0 <= t < |threads| => Debt(lens, threads[t], walkers[t], k))
  }

  /** The counters, with what is still owed, are those of the serial run. */
  ghost predicate Balanced(cfg: Config, s: State, g: Shadow) {
    && |s.threads| == |g.walkers| && cfg.Valid()
    && forall k: Counter ::
         SerialCount(cfg.lens, Fresh(cfg.Size()), g.log, k)
         == Value(s.mem.counters, k) + Sum(Debts(cfg.lens, s.threads, g.walkers, k))
  }

  ghost predicate Sim(cfg: Config, s: State, g: Shadow) {
    && WellFormed(cfg, s)
    && Inv(cfg.lens, cfg.shared, Fresh(cfg.Size()), g)
    && AllTrack(cfg, s, g)
    && LocksMatch(cfg, s)
    && Chained(s, g.order)
    && Balanced(cfg, s, g)
  }

  // ----- windows and locks

  /** A thread inside the list always holds the lock at the low end of its window. */
  lemma LowHeld(lens: seq<nat>, l: seq<nat>, role: Role, th: Thread, w: Walker)
    requires Tracks(lens, l, role, th, w) && w.In? && 1 <= |l| && l[0] == 0
    ensures w.low < |l| && l[w.low] as int in Held(th) && (w.op.Search? <==> role.Searcher?)
  {
  }

  /** Every lock a thread holds is at an index inside its window. */
  lemma HeldInside(lens: seq<nat>, l: seq<nat>, role: Role, th: Thread, w: Walker, x: int) returns (i: nat)
    requires Tracks(lens, l, role, th, w) && x in Held(th) && 1 <= |l| && l[0] == 0
    ensures w.In? && w.low <= i <= w.high < |l| && l[i] == x
  {
    if l[w.low] == x { i := w.low; } else if l[w.high] == x { i := w.high; } else { i := w.low + 1; }
  }

  /** A granted lock means that nobody who excludes t ends its window there. */
  lemma GrantedUnfenced(cfg: Config, s: State, g: Shadow, t: nat, w: Walker, i: nat)
    requires WellFormed(cfg, s) && AllTrack(cfg, s, g) && LocksMatch(cfg, s) && Arrangement(g.order)
    requires t < |s.threads| && w.In? && (w.op.Search? <==> cfg.roles[t].Searcher?)
    requires i < |g.order| && CanTake(s.mem.locks[g.order[i]], cfg.Shares(t))
    ensures Unfenced(cfg.shared, g, t, w, i)
  {
    forall u | 0 <= u < |g.walkers| && u != t && Exclude(cfg.shared, w, g.walkers[u])
      ensures g.walkers[u].low != i
    {
      assert Tracks(cfg.lens, g.order, cfg.roles[u], s.threads[u], g.walkers[u]);
      LowHeld(cfg.lens, g.order, cfg.roles[u], s.threads[u], g.walkers[u]);
      assert Owns(s.mem.locks[g.order[g.walkers[u].low]], u);
      assert LockKind(cfg, s.mem.locks[g.order[i]]);
    }
  }

  lemma SearcherGuard(cfg: Config, s: State, g: Shadow, t: nat, f: Flavor)
    requires WellFormed(cfg, s) && AllTrack(cfg, s, g) && LocksMatch(cfg, s) && Arrangement(g.order)
    requires AllSound(cfg.lens, Fresh(cfg.Size()), g)
    requires t < |s.threads| && cfg.roles[t] == Searcher(f)
    ensures Guard(cfg.shared, g, SearcherEvent(cfg, s.mem, t, s.threads[t], f))
  {
    var th, w := s.threads[t], g.walkers[t];
    assert Tracks(cfg.lens, g.order, cfg.roles[t], s.threads[t], g.walkers[t]);
    if th.pc == LockFirst && CanTake(s.mem.locks[0], cfg.Shares(t)) {
      GrantedUnfenced(cfg, s, g, t, Newcomer(g, Search(f)), 0);
    } else if th.pc == LockA && CanTake(s.mem.locks[th.cur], cfg.Shares(t)) {
      GrantedUnfenced(cfg, s, g, t, w, w.high + 1);
    } else if th.pc == LockB && CanTake(s.mem.locks[th.nxt], cfg.Shares(t)) {
      GrantedUnfenced(cfg, s, g, t, w, w.high + 1);
    } else if th.pc == UnlockLast {
      assert Sound(cfg.lens, Fresh(cfg.Size()), g.order, g.log, g.walkers[t]);
    }
  }

  /** A swapper that asks for its next lock may take it when it is granted. */
  lemma SwapperGrabs(cfg: Config, s: State, g: Shadow, t: nat, f: Flavor, th: Thread, w: Walker, x: int)
    requires WellFormed(cfg, s) && AllTrack(cfg, s, g) && LocksMatch(cfg, s) && Arrangement(g.order)
    requires t < |s.threads| && th == s.threads[t] && w == g.walkers[t] && cfg.roles[t] == Swapper(f)
    requires SwapperTracks(cfg.lens, g.order, f, th, w)
    requires th.pc.LockCur? || th.pc.WalkLock? || th.pc.LockRight?
    requires x == (if th.pc.LockCur? then th.cur else th.nxt) && 0 <= x < |s.mem.locks|
    requires CanTake(s.mem.locks[x], cfg.Shares(t))
    ensures Guard(cfg.shared, g, Grab(t, x))
  {
    GrantedUnfenced(cfg, s, g, t, w, w.high + 1);
  }

  lemma SwapperGuard(cfg: Config, s: State, g: Shadow, t: nat, f: Flavor)
    requires WellFormed(cfg, s) && AllTrack(cfg, s, g) && LocksMatch(cfg, s) && Arrangement(g.order)
    requires t < |s.threads| && cfg.roles[t] == Swapper(f)
    ensures Guard(cfg.shared, g, SwapperEvent(cfg, s.mem, t, s.threads[t], f))
  {
    var th, w := s.threads[t], g.walkers[t];
    assert Tracks(cfg.lens, g.order, cfg.roles[t], s.threads[t], g.walkers[t]);
    if th.pc == LockFirst && CanTake(s.mem.locks[th.prev], cfg.Shares(t)) {
      GrantedUnfenced(cfg, s, g, t, Newcomer(g, Swap(f, th.left)), 0);
    } else if th.pc == LockCur && CanTake(s.mem.locks[th.cur], cfg.Shares(t)) {
      SwapperGrabs(cfg, s, g, t, f, th, w, th.cur);
    } else if (th.pc == WalkLock || th.pc == LockRight) && CanTake(s.mem.locks[th.nxt], cfg.Shares(t)) {
      SwapperGrabs(cfg, s, g, t, f, th, w, th.nxt);
    }
  }

  lemma ThreadGuard(cfg: Config, s: State, g: Shadow, t: nat)
    requires WellFormed(cfg, s) && AllTrack(cfg, s, g) && LocksMatch(cfg, s) && Arrangement(g.order)
    requires AllSound(cfg.lens, Fresh(cfg.Size()), g) && t < |s.threads|
    ensures Guard(cfg.shared, g, ThreadEvent(cfg, s.mem, t, s.threads[t]))
  {
    match cfg.roles[t]
    case Searcher(f) => SearcherGuard(cfg, s, g, t, f);
    case Swapper(f) => SwapperGuard(cfg, s, g, t, f);
  }

  // ----- what a thread reads

  /** The windows of two operations that exclude each other do not meet. */
  lemma Disjoint(cfg: Config, g: Shadow, t: nat, u: nat)
    requires AllApart(cfg.shared, g) && Inside(g, t) && Inside(g, u) && t != u
    requires Exclude(cfg.shared, g.walkers[t], g.walkers[u])
    ensures g.walkers[t].high < g.walkers[u].low || g.walkers[u].high < g.walkers[t].low
  {
    assert Apart(cfg.shared, g.walkers[t], g.walkers[u]) && Apart(cfg.shared, g.walkers[u], g.walkers[t]);
  }

  /** The node at the front of w's window points to its successor. */
  ghost predicate ReadsSuccessor(next: seq<int>, l: seq<nat>, w: Walker) {
    w.In? && w.high < |l| && l[w.high] < |next| && next[l[w.high]] == Succ(l, w.high)
  }

  /** A `next` is read only where no exchange is under way, so the read yields the true successor. */
  lemma ReadIsSuccessor(cfg: Config, s: State, g: Shadow, t: nat)
    requires WellFormed(cfg, s) && AllTrack(cfg, s, g) && AllApart(cfg.shared, g) && Chained(s, g.order)
    requires Inside(g, t) && g.walkers[t].low <= g.walkers[t].high < |g.order|
    requires s.threads[t].pc != Write2 && s.threads[t].pc != Write3
    ensures Mended(s, g.walkers[t].high) && ReadsSuccessor(s.mem.next, g.order, g.walkers[t])
  {
    forall u | 0 <= u < |s.threads|
      ensures !Torn(s.threads[u], g.walkers[t].high)
    {
      if u != t && (s.threads[u].pc == Write2 || s.threads[u].pc == Write3) {
        assert Tracks(cfg.lens, g.order, cfg.roles[u], s.threads[u], g.walkers[u]);
        Disjoint(cfg, g, t, u);
      }
    }
  }

  // ----- local variables after a step

  ghost predicate SearcherTracksOn(cfg: Config, m: Memory, g: Shadow, t: nat, th: Thread, w: Walker, f: Flavor)
    requires MemoryOk(cfg, m) && PointsInside(cfg, th)
  {
    var r, e := SearcherStep(cfg, m, t, th, f), SearcherEvent(cfg, m, t, th, f);
    SearcherTracks(cfg.lens, Reordered(cfg.lens, g.order, w, e), f, r.th, Moved(g, w, e))
  }

  ghost predicate SwapperTracksOn(cfg: Config, m: Memory, g: Shadow, t: nat, th: Thread, w: Walker, f: Flavor,
                                  choice: nat)
    requires MemoryOk(cfg, m) && PointsInside(cfg, th)
  {
    var r, e := SwapperStep(cfg, m, t, th, f, choice), SwapperEvent(cfg, m, t, th, f);
    SwapperTracks(cfg.lens, Reordered(cfg.lens, g.order, w, e), f, r.th, Moved(g, w, e))
  }

  /** The sentinel leads a list of the right length. */
  ghost predicate Headed(cfg: Config, m: Memory, g: Shadow, th: Thread) {
    && MemoryOk(cfg, m) && PointsInside(cfg, th)
    && |g.order| == |g.serial| == |cfg.lens| && g.order[0] == 0
  }

  /** w's snapshot agrees with the list on what w has locked. */
  ghost predicate MeetsSnapshot(l: seq<nat>, w: Walker) {
    w.In? && |w.snap| == |l| && forall i :: w.low <= i <= w.high && i < |l| ==> l[i] == w.snap[i]
  }

  lemma SearcherRests(cfg: Config, m: Memory, g: Shadow, t: nat, th: Thread, w: Walker, f: Flavor)
    requires Headed(cfg, m, g, th) && SearcherTracks(cfg.lens, g.order, f, th, w)
    requires (th.pc.Start? || th.pc.Idle? || th.pc.Done? || th.pc.AddPairs? || th.pc.AddIter?)
    ensures SearcherTracksOn(cfg, m, g, t, th, w, f)
  {
  }

  lemma SearcherEnters(cfg: Config, m: Memory, g: Shadow, t: nat, th: Thread, w: Walker, f: Flavor)
    requires Headed(cfg, m, g, th) && SearcherTracks(cfg.lens, g.order, f, th, w)
    requires (th.pc.LockFirst? || th.pc.ReadA? || th.pc.LockA? || th.pc.UnlockFirst?)
    requires w.In? ==> ReadsSuccessor(m.next, g.order, w)
    ensures SearcherTracksOn(cfg, m, g, t, th, w, f)
  {
  }

  lemma SearcherReads(cfg: Config, m: Memory, g: Shadow, t: nat, th: Thread, w: Walker, f: Flavor)
    requires Headed(cfg, m, g, th) && SearcherTracks(cfg.lens, g.order, f, th, w)
    requires (th.pc.ReadB? || th.pc.LockB?)
    requires ReadsSuccessor(m.next, g.order, w)
    ensures SearcherTracksOn(cfg, m, g, t, th, w, f)
  {
  }

  /** The pair that is compared is the pair of the serial list at the same place. */
  lemma SearcherCompares(cfg: Config, m: Memory, g: Shadow, t: nat, th: Thread, w: Walker, f: Flavor)
    requires Headed(cfg, m, g, th) && SearcherTracks(cfg.lens, g.order, f, th, w)
    requires th.pc.CompareAB?
    requires MeetsSnapshot(g.order, w)
    ensures SearcherTracksOn(cfg, m, g, t, th, w, f)
  {
  }

  lemma SearcherSlides(cfg: Config, m: Memory, g: Shadow, t: nat, th: Thread, w: Walker, f: Flavor)
    requires Headed(cfg, m, g, th) && SearcherTracks(cfg.lens, g.order, f, th, w)
    requires (th.pc.UnlockA? || th.pc.UnlockLast?)
    ensures SearcherTracksOn(cfg, m, g, t, th, w, f)
  {
  }

  lemma SearcherKeepsTrack(cfg: Config, m: Memory, g: Shadow, t: nat, th: Thread, w: Walker, f: Flavor)
    requires Headed(cfg, m, g, th) && SearcherTracks(cfg.lens, g.order, f, th, w)
    requires w.In? ==> ReadsSuccessor(m.next, g.order, w) && MeetsSnapshot(g.order, w)
    ensures SearcherTracksOn(cfg, m, g, t, th, w, f)
  {
    if th.pc.LockFirst? || th.pc.ReadA? || th.pc.LockA? || th.pc.UnlockFirst? {
      SearcherEnters(cfg, m, g, t, th, w, f);
    } else if th.pc.ReadB? || th.pc.LockB? {
      SearcherReads(cfg, m, g, t, th, w, f);
    } else if th.pc.CompareAB? {
      SearcherCompares(cfg, m, g, t, th, w, f);
    } else if th.pc.UnlockA? || th.pc.UnlockLast? {
      SearcherSlides(cfg, m, g, t, th, w, f);
    } else {
      SearcherRests(cfg, m, g, t, th, w, f);
    }
  }

  lemma SwapperRests(cfg: Config, m: Memory, g: Shadow, t: nat, th: Thread, w: Walker, f: Flavor, choice: nat)
    requires Headed(cfg, m, g, th) && SwapperTracks(cfg.lens, g.order, f, th, w)
    requires (th.pc.Start? || th.pc.Idle? || th.pc.Done? || th.pc.Choose? || th.pc.LockFirst?)
    ensures SwapperTracksOn(cfg, m, g, t, th, w, f, choice)
  {
  }

  lemma SwapperStarts(cfg: Config, m: Memory, g: Shadow, t: nat, th: Thread, w: Walker, f: Flavor, choice: nat)
    requires Headed(cfg, m, g, th) && SwapperTracks(cfg.lens, g.order, f, th, w)
    requires th.pc.ReadCur? || th.pc.LockCur?
    requires ReadsSuccessor(m.next, g.order, w)
    ensures SwapperTracksOn(cfg, m, g, t, th, w, f, choice)
  {
  }

  lemma SwapperLooksOn(cfg: Config, m: Memory, g: Shadow, t: nat, th: Thread, w: Walker, f: Flavor, choice: nat)
    requires Headed(cfg, m, g, th) && SwapperTracks(cfg.lens, g.order, f, th, w)
    requires th.pc.Walk?
    requires ReadsSuccessor(m.next, g.order, w)
    ensures SwapperTracksOn(cfg, m, g, t, th, w, f, choice)
  {
  }

  lemma SwapperWalks(cfg: Config, m: Memory, g: Shadow, t: nat, th: Thread, w: Walker, f: Flavor, choice: nat)
    requires Headed(cfg, m, g, th) && SwapperTracks(cfg.lens, g.order, f, th, w)
    requires th.pc.ReadCur? || th.pc.LockCur? || th.pc.Walk?
    requires ReadsSuccessor(m.next, g.order, w)
    ensures SwapperTracksOn(cfg, m, g, t, th, w, f, choice)
  {
    if th.pc.ReadCur? || th.pc.LockCur? { SwapperStarts(cfg, m, g, t, th, w, f, choice); } else { SwapperLooksOn(cfg, m, g, t, th, w, f, choice); }
  }

  lemma SwapperGrabsNext(cfg: Config, m: Memory, g: Shadow, t: nat, th: Thread, w: Walker, f: Flavor, choice: nat)
    requires Headed(cfg, m, g, th) && SwapperTracks(cfg.lens, g.order, f, th, w)
    requires th.pc.WalkLock?
    ensures SwapperTracksOn(cfg, m, g, t, th, w, f, choice)
  {
  }

  lemma SwapperDropsPrev(cfg: Config, m: Memory, g: Shadow, t: nat, th: Thread, w: Walker, f: Flavor, choice: nat)
    requires Headed(cfg, m, g, th) && SwapperTracks(cfg.lens, g.order, f, th, w)
    requires th.pc.WalkUnlock?
    ensures SwapperTracksOn(cfg, m, g, t, th, w, f, choice)
  {
  }

  lemma SwapperSlides(cfg: Config, m: Memory, g: Shadow, t: nat, th: Thread, w: Walker, f: Flavor, choice: nat)
    requires Headed(cfg, m, g, th) && SwapperTracks(cfg.lens, g.order, f, th, w)
    requires th.pc.WalkLock? || th.pc.WalkUnlock?
    ensures SwapperTracksOn(cfg, m, g, t, th, w, f, choice)
  {
    if th.pc.WalkLock? { SwapperGrabsNext(cfg, m, g, t, th, w, f, choice); } else { SwapperDropsPrev(cfg, m, g, t, th, w, f, choice); }
  }

  lemma SwapperReadsRight(cfg: Config, m: Memory, g: Shadow, t: nat, th: Thread, w: Walker, f: Flavor, choice: nat)
    requires Headed(cfg, m, g, th) && SwapperTracks(cfg.lens, g.order, f, th, w)
    requires th.pc.ReadRight?
    requires ReadsSuccessor(m.next, g.order, w)
    ensures SwapperTracksOn(cfg, m, g, t, th, w, f, choice)
  {
  }

  lemma SwapperLocksRight(cfg: Config, m: Memory, g: Shadow, t: nat, th: Thread, w: Walker, f: Flavor, choice: nat)
    requires Headed(cfg, m, g, th) && SwapperTracks(cfg.lens, g.order, f, th, w)
    requires th.pc.LockRight?
    requires ReadsSuccessor(m.next, g.order, w)
    ensures SwapperTracksOn(cfg, m, g, t, th, w, f, choice)
  {
  }

  lemma SwapperArrives(cfg: Config, m: Memory, g: Shadow, t: nat, th: Thread, w: Walker, f: Flavor, choice: nat)
    requires Headed(cfg, m, g, th) && SwapperTracks(cfg.lens, g.order, f, th, w)
    requires th.pc.ReadRight? || th.pc.LockRight?
    requires ReadsSuccessor(m.next, g.order, w)
    ensures SwapperTracksOn(cfg, m, g, t, th, w, f, choice)
  {
    if th.pc.ReadRight? { SwapperReadsRight(cfg, m, g, t, th, w, f, choice); } else { SwapperLocksRight(cfg, m, g, t, th, w, f, choice); }
  }

  /** The decision is the one of the serial list. */
  lemma SwapperDecides(cfg: Config, m: Memory, g: Shadow, t: nat, th: Thread, w: Walker, f: Flavor, choice: nat)
    requires Headed(cfg, m, g, th) && SwapperTracks(cfg.lens, g.order, f, th, w)
    requires (th.pc.CompareLR? || th.pc.Write1?)
    requires MeetsSnapshot(g.order, w)
    ensures SwapperTracksOn(cfg, m, g, t, th, w, f, choice)
  {
  }

  lemma SwapperWrites(cfg: Config, m: Memory, g: Shadow, t: nat, th: Thread, w: Walker, f: Flavor, choice: nat)
    requires Headed(cfg, m, g, th) && SwapperTracks(cfg.lens, g.order, f, th, w)
    requires th.pc.Write2? || th.pc.Write3?
    ensures SwapperTracksOn(cfg, m, g, t, th, w, f, choice)
  {
  }

  lemma SwapperReported(cfg: Config, m: Memory, g: Shadow, t: nat, th: Thread, w: Walker, f: Flavor, choice: nat)
    requires Headed(cfg, m, g, th) && SwapperTracks(cfg.lens, g.order, f, th, w)
    requires th.pc.AddSwap?
    ensures SwapperTracksOn(cfg, m, g, t, th, w, f, choice)
  {
  }

  lemma SwapperRelinks(cfg: Config, m: Memory, g: Shadow, t: nat, th: Thread, w: Walker, f: Flavor, choice: nat)
    requires Headed(cfg, m, g, th) && SwapperTracks(cfg.lens, g.order, f, th, w)
    requires th.pc.Write2? || th.pc.Write3? || th.pc.AddSwap?
    ensures SwapperTracksOn(cfg, m, g, t, th, w, f, choice)
  {
    if th.pc.Write2? || th.pc.Write3? { SwapperWrites(cfg, m, g, t, th, w, f, choice); } else { SwapperReported(cfg, m, g, t, th, w, f, choice); }
  }

  lemma SwapperLeavesRight(cfg: Config, m: Memory, g: Shadow, t: nat, th: Thread, w: Walker, f: Flavor, choice: nat)
    requires Headed(cfg, m, g, th) && SwapperTracks(cfg.lens, g.order, f, th, w)
    requires th.pc.UnlockNext?
    ensures SwapperTracksOn(cfg, m, g, t, th, w, f, choice)
  {
  }

  lemma SwapperLeavesRest(cfg: Config, m: Memory, g: Shadow, t: nat, th: Thread, w: Walker, f: Flavor, choice: nat)
    requires Headed(cfg, m, g, th) && SwapperTracks(cfg.lens, g.order, f, th, w)
    requires th.pc.UnlockCur? || th.pc.UnlockPrev?
    ensures SwapperTracksOn(cfg, m, g, t, th, w, f, choice)
  {
  }

  lemma SwapperUnlocks(cfg: Config, m: Memory, g: Shadow, t: nat, th: Thread, w: Walker, f: Flavor, choice: nat)
    requires Headed(cfg, m, g, th) && SwapperTracks(cfg.lens, g.order, f, th, w)
    requires th.pc.UnlockNext? || th.pc.UnlockCur? || th.pc.UnlockPrev?
    ensures SwapperTracksOn(cfg, m, g, t, th, w, f, choice)
  {
    if th.pc.UnlockNext? { SwapperLeavesRight(cfg, m, g, t, th, w, f, choice); } else { SwapperLeavesRest(cfg, m, g, t, th, w, f, choice); }
  }

  lemma SwapperKeepsTrack(cfg: Config, m: Memory, g: Shadow, t: nat, th: Thread, w: Walker, f: Flavor, choice: nat)
    requires Headed(cfg, m, g, th) && SwapperTracks(cfg.lens, g.order, f, th, w)
    requires w.In? && !th.pc.Write2? && !th.pc.Write3? ==> ReadsSuccessor(m.next, g.order, w)
    requires w.In? && w.pending ==> MeetsSnapshot(g.order, w)
    ensures SwapperTracksOn(cfg, m, g, t, th, w, f, choice)
  {
    if th.pc.ReadCur? || th.pc.LockCur? || th.pc.Walk? {
      SwapperWalks(cfg, m, g, t, th, w, f, choice);
    } else if th.pc.WalkLock? || th.pc.WalkUnlock? {
      SwapperSlides(cfg, m, g, t, th, w, f, choice);
    } else if th.pc.ReadRight? || th.pc.LockRight? {
      SwapperArrives(cfg, m, g, t, th, w, f, choice);
    } else if th.pc.CompareLR? || th.pc.Write1? {
      SwapperDecides(cfg, m, g, t, th, w, f, choice);
    } else if th.pc.Write2? || th.pc.Write3? || th.pc.AddSwap? {
      SwapperRelinks(cfg, m, g, t, th, w, f, choice);
    } else if th.pc.UnlockNext? || th.pc.UnlockCur? || th.pc.UnlockPrev? {
      SwapperUnlocks(cfg, m, g, t, th, w, f, choice);
    } else {
      SwapperRests(cfg, m, g, t, th, w, f, choice);
    }
  }

  // ----- the other threads

  /** An exchange happens strictly between fences, so it moves nothing another operation relies on. */
  lemma TracksFrame(lens: seq<nat>, l: seq<nat>, l': seq<nat>, role: Role, th: Thread, w: Walker)
    requires Tracks(lens, l, role, th, w) && |l| == |l'|
    requires l != [] && l[0] == l'[0]
    requires w.In? ==> forall i :: w.low <= i <= w.high + 1 && i < |l| ==> l[i] == l'[i]
    ensures Tracks(lens, l', role, th, w)
  {
  }

  lemma OtherTracksOn(cfg: Config, s: State, g: Shadow, e: Event, u: nat)
    requires AllTrack(cfg, s, g) && AllApart(cfg.shared, g) && Arrangement(g.order)
    requires Guard(cfg.shared, g, e) && !e.Quiet? && u < |s.threads| && u != e.t
    ensures Tracks(cfg.lens, Advance(cfg.lens, g, e).order, cfg.roles[u], s.threads[u], g.walkers[u])
  {
    assert Tracks(cfg.lens, g.order, cfg.roles[u], s.threads[u], g.walkers[u]);
    if e.Exchange? {
      var w, x := g.walkers[e.t], g.walkers[u];
      if x.In? { Disjoint(cfg, g, e.t, u); }
      TracksFrame(cfg.lens, g.order, Apply(cfg.lens, w.op, g.order), cfg.roles[u], s.threads[u], x);
    }
  }
}
