/** Lock words, pointers and counters through a step, and the simulation theorem. */
module ListSteps {
  import opened ListOps
  import opened Sums
  import opened Traversals
  import opened LockedList
  import opened ListSimulation

  // ----- lock words

  lemma SameHandsKeepLocks(cfg: Config, s: State, t: nat, th: Thread)
    requires LocksMatch(cfg, s) && t < |s.threads| && Held(th) == Held(s.threads[t])
    ensures LocksMatch(cfg, s.(threads := s.threads[t := th]))
  {
  }

  lemma TakingKeepsLocks(cfg: Config, s: State, t: nat, x: int, th: Thread)
    requires LocksMatch(cfg, s) && t < |s.threads| && 0 <= x < |s.mem.locks|
    requires CanTake(s.mem.locks[x], cfg.Shares(t)) && Held(th) == Held(s.threads[t]) + {x}
    ensures LocksMatch(cfg, State(s.mem.(locks := s.mem.locks[x := Taken(s.mem.locks[x], t, cfg.Shares(t))]),
                                  s.threads[t := th]))
  {
    assert LockKind(cfg, s.mem.locks[x]);
    assert forall u :: Owns(Taken(s.mem.locks[x], t, cfg.Shares(t)), u) <==> u == t || Owns(s.mem.locks[x], u);
  }

  lemma ReleasingKeepsLocks(cfg: Config, s: State, t: nat, x: int, th: Thread)
    requires LocksMatch(cfg, s) && t < |s.threads| && 0 <= x < |s.mem.locks|
    requires x in Held(s.threads[t]) && Held(th) == Held(s.threads[t]) - {x}
    ensures LocksMatch(cfg, State(s.mem.(locks := s.mem.locks[x := Released(s.mem.locks[x], t)]),
                                  s.threads[t := th]))
  {
    assert LockKind(cfg, s.mem.locks[x]) && Owns(s.mem.locks[x], t);
    assert forall u :: Owns(Released(s.mem.locks[x], t), u) <==> u != t && Owns(s.mem.locks[x], u);
  }

  /** The nodes in a thread's hands are different ones, and no early exit is ever taken. */
  ghost predicate HandsDiffer(th: Thread) {
    && (th.pc.UnlockFirst? ==> th.cur != 0)
    && (th.pc.UnlockA? ==> th.cur != th.nxt)
    && (th.pc.WalkUnlock? || th.pc.UnlockNext? ==> th.prev != th.cur && th.prev != th.nxt && th.cur != th.nxt)
    && (th.pc.UnlockCur? ==> th.prev != th.cur)
    && !(th.pc.EmptyUnlock? || th.pc.EmptyCount? || th.pc.EmptyBail? || th.pc.BailCur? || th.pc.BailPrev?)
  }

  lemma TracksHands(lens: seq<nat>, l: seq<nat>, role: Role, th: Thread, w: Walker)
    requires Tracks(lens, l, role, th, w) && Arrangement(l)
    ensures HandsDiffer(th)
  {
  }

  /** What a step does to lock words and hands: nothing, take one lock, or give one back. */
  ghost predicate HandsMove(cfg: Config, m: Memory, t: nat, th: Thread, r: Move) {
    || (r.mem.locks == m.locks && Held(r.th) == Held(th))
    || (exists x | 0 <= x < |m.locks| ::
          && CanTake(m.locks[x], cfg.Shares(t)) && Held(r.th) == Held(th) + {x}
          && r.mem.locks == m.locks[x := Taken(m.locks[x], t, cfg.Shares(t))])
    || (exists x | 0 <= x < |m.locks| ::
          && x in Held(th) && Held(r.th) == Held(th) - {x}
          && r.mem.locks == m.locks[x := Released(m.locks[x], t)])
  }

  lemma HandsMoveKeepsLocks(cfg: Config, s: State, t: nat, r: Move)
    requires LocksMatch(cfg, s) && t < |s.threads| && HandsMove(cfg, s.mem, t, s.threads[t], r)
    ensures LocksMatch(cfg, State(r.mem, s.threads[t := r.th]))
  {
    if r.mem.locks == s.mem.locks && Held(r.th) == Held(s.threads[t]) {
      SameHandsKeepLocks(cfg, s, t, r.th);
    } else if x :| && 0 <= x < |s.mem.locks|
                   && CanTake(s.mem.locks[x], cfg.Shares(t)) && Held(r.th) == Held(s.threads[t]) + {x}
                   && r.mem.locks == s.mem.locks[x := Taken(s.mem.locks[x], t, cfg.Shares(t))] {
      TakingKeepsLocks(cfg, s, t, x, r.th);
    } else {
      var x :| && 0 <= x < |s.mem.locks| && x in Held(s.threads[t]) && Held(r.th) == Held(s.threads[t]) - {x}
               && r.mem.locks == s.mem.locks[x := Released(s.mem.locks[x], t)];
      ReleasingKeepsLocks(cfg, s, t, x, r.th);
    }
  }

  lemma AcquireMoves(cfg: Config, m: Memory, t: nat, x: int, th: Thread, th': Thread)
    requires 0 <= x < |m.locks| && Held(th') == Held(th) + {x}
    ensures HandsMove(cfg, m, t, th, Acquire(cfg, m, t, x, th, th'))
  {
  }

  lemma ReleaseMoves(cfg: Config, m: Memory, t: nat, x: int, th: Thread, th': Thread)
    requires 0 <= x < |m.locks| && x in Held(th) && Held(th') == Held(th) - {x}
    ensures HandsMove(cfg, m, t, th, Release(m, t, x, th'))
  {
  }

  lemma SearcherTakes(cfg: Config, m: Memory, t: nat, th: Thread, f: Flavor)
    requires MemoryOk(cfg, m) && PointsInside(cfg, th)
    requires th.pc.LockFirst? || th.pc.LockA? || th.pc.LockB?
    ensures HandsMove(cfg, m, t, th, SearcherStep(cfg, m, t, th, f))
  {
    if th.pc.LockFirst? {
      AcquireMoves(cfg, m, t, 0, th, th.(pc := ReadA));
    } else if th.pc.LockA? {
      AcquireMoves(cfg, m, t, th.cur, th, th.(pc := UnlockFirst));
    } else {
      AcquireMoves(cfg, m, t, th.nxt, th, th.(pc := CompareAB));
    }
  }

  lemma SearcherReturns(cfg: Config, m: Memory, t: nat, th: Thread, f: Flavor)
    requires MemoryOk(cfg, m) && PointsInside(cfg, th) && HandsDiffer(th)
    requires th.pc.UnlockFirst? || th.pc.UnlockA? || th.pc.UnlockLast?
    ensures HandsMove(cfg, m, t, th, SearcherStep(cfg, m, t, th, f))
  {
    if th.pc.UnlockFirst? {
      ReleaseMoves(cfg, m, t, 0, th, th.(pc := ReadB, pairs := 0));
    } else if th.pc.UnlockA? {
      ReleaseMoves(cfg, m, t, th.cur, th, th.(pc := ReadB, cur := th.nxt));
    } else {
      ReleaseMoves(cfg, m, t, th.cur, th, th.(pc := AddPairs));
    }
  }

  lemma SearcherHands(cfg: Config, m: Memory, t: nat, th: Thread, f: Flavor)
    requires MemoryOk(cfg, m) && PointsInside(cfg, th) && HandsDiffer(th)
    ensures HandsMove(cfg, m, t, th, SearcherStep(cfg, m, t, th, f))
  {
    if th.pc.LockFirst? || th.pc.LockA? || th.pc.LockB? {
      SearcherTakes(cfg, m, t, th, f);
    } else if th.pc.UnlockFirst? || th.pc.UnlockA? || th.pc.UnlockLast? {
      SearcherReturns(cfg, m, t, th, f);
    } else {
      var r := SearcherStep(cfg, m, t, th, f);
      assert r.mem.locks == m.locks && Held(r.th) == Held(th);
    }
  }

  predicate Asks(th: Thread) {
    th.pc.LockFirst? || th.pc.LockCur? || th.pc.WalkLock? || th.pc.LockRight?
  }

  predicate GivesBack(th: Thread) {
    th.pc.WalkUnlock? || th.pc.UnlockNext? || th.pc.UnlockCur? || th.pc.UnlockPrev?
  }

  lemma SwapperTakes(cfg: Config, m: Memory, t: nat, th: Thread, f: Flavor, choice: nat)
    requires MemoryOk(cfg, m) && PointsInside(cfg, th) && Asks(th)
    ensures HandsMove(cfg, m, t, th, SwapperStep(cfg, m, t, th, f, choice))
  {
    if th.pc.LockFirst? {
      AcquireMoves(cfg, m, t, th.prev, th, th.(pc := ReadCur));
    } else if th.pc.LockCur? {
      AcquireMoves(cfg, m, t, th.cur, th, th.(pc := Walk, i := 0));
    } else if th.pc.WalkLock? {
      AcquireMoves(cfg, m, t, th.nxt, th, th.(pc := WalkUnlock));
    } else {
      AcquireMoves(cfg, m, t, th.nxt, th, th.(pc := CompareLR));
    }
  }

  lemma SwapperReturns(cfg: Config, m: Memory, t: nat, th: Thread, f: Flavor, choice: nat)
    requires MemoryOk(cfg, m) && PointsInside(cfg, th) && HandsDiffer(th) && GivesBack(th)
    ensures HandsMove(cfg, m, t, th, SwapperStep(cfg, m, t, th, f, choice))
  {
    if th.pc.WalkUnlock? {
      ReleaseMoves(cfg, m, t, th.prev, th, th.(pc := Walk, prev := th.cur, cur := th.nxt, i := th.i + 1));
    } else if th.pc.UnlockNext? {
      ReleaseMoves(cfg, m, t, th.nxt, th, th.(pc := UnlockCur));
    } else if th.pc.UnlockCur? {
      ReleaseMoves(cfg, m, t, th.cur, th, th.(pc := UnlockPrev));
    } else {
      ReleaseMoves(cfg, m, t, th.prev, th, th.(pc := Idle));
    }
  }

  lemma SwapperHands(cfg: Config, m: Memory, t: nat, th: Thread, f: Flavor, choice: nat)
    requires MemoryOk(cfg, m) && PointsInside(cfg, th) && HandsDiffer(th)
    ensures HandsMove(cfg, m, t, th, SwapperStep(cfg, m, t, th, f, choice))
  {
    if Asks(th) {
      SwapperTakes(cfg, m, t, th, f, choice);
    } else if GivesBack(th) {
      SwapperReturns(cfg, m, t, th, f, choice);
    } else {
      var r := SwapperStep(cfg, m, t, th, f, choice);
      assert r.mem.locks == m.locks && Held(r.th) == Held(th);
    }
  }

  lemma StepKeepsLocks(cfg: Config, s: State, g: Shadow, t: nat, choice: nat)
    requires WellFormed(cfg, s) && LocksMatch(cfg, s) && AllTrack(cfg, s, g) && Arrangement(g.order)
    requires t < |s.threads|
    ensures LocksMatch(cfg, Step(cfg, s, Run(t, choice)))
  {
    assert Tracks(cfg.lens, g.order, cfg.roles[t], s.threads[t], g.walkers[t]);
    TracksHands(cfg.lens, g.order, cfg.roles[t], s.threads[t], g.walkers[t]);
    match cfg.roles[t] {
      case Searcher(f) => SearcherHands(cfg, s.mem, t, s.threads[t], f);
      case Swapper(f) => SwapperHands(cfg, s.mem, t, s.threads[t], f, choice);
    }
    HandsMoveKeepsLocks(cfg, s, t, ThreadStep(cfg, s.mem, t, s.threads[t], choice));
  }

  // ----- pointers

  /** Only t's own place in the code can tear or mend a link. */
  lemma OthersMended(s: State, s': State, t: nat, i: nat)
    requires t < |s.threads| == |s'.threads| && s'.threads == s.threads[t := s'.threads[t]]
    requires Mended(s', i) && !Torn(s.threads[t], i)
    ensures Mended(s, i)
  {
    forall u | 0 <= u < |s.threads|
      ensures !Torn(s.threads[u], i)
    {
      assert !Torn(s'.threads[u], i);
    }
  }

  ghost predicate Links(s: State, l: seq<nat>) {
    && |s.mem.next| == |l|
    && (forall i :: 0 <= i < |l| ==> l[i] < |l|)
    && forall i :: 0 <= i < |l| && Mended(s, i) ==> s.mem.next[l[i]] == Succ(l, i)
  }

  lemma QuietKeepsTails(s: State, s': State, l: seq<nat>, t: nat, u: nat)
    requires t < |s.threads| == |s'.threads| && s'.mem.next == s.mem.next && u < |s.threads|
    requires s'.threads == s.threads[t := s'.threads[t]] && s'.threads[t].pc != Write2
    requires TailKept(s, l, s.threads[u])
    ensures TailKept(s', l, s'.threads[u])
  {
  }

  lemma QuietKeepsLink(s: State, s': State, l: seq<nat>, t: nat, i: nat)
    requires Chained(s, l) && t < |s.threads| == |s'.threads| && s'.mem.next == s.mem.next
    requires s'.threads == s.threads[t := s'.threads[t]]
    requires s.threads[t].pc != Write2 && s.threads[t].pc != Write3
    requires i < |l| && Mended(s', i)
    ensures s'.mem.next[l[i]] == Succ(l, i)
  {
    OthersMended(s, s', t, i);
  }

  /** A step that writes no `next` and exchanges nothing. */
  lemma QuietKeepsChain(s: State, s': State, l: seq<nat>, t: nat)
    requires Chained(s, l) && t < |s.threads| == |s'.threads| && s'.mem.next == s.mem.next
    requires s'.threads == s.threads[t := s'.threads[t]]
    requires s.threads[t].pc != Write2 && s.threads[t].pc != Write3
    requires s'.threads[t].pc != Write2 && s'.threads[t].pc != Write3
    ensures Chained(s', l)
  {
    forall i | 0 <= i < |l| && Mended(s', i)
      ensures s'.mem.next[l[i]] == Succ(l, i)
    {
      QuietKeepsLink(s, s', l, t, i);
    }
    forall u | 0 <= u < |s'.threads|
      ensures TailKept(s', l, s'.threads[u])
    {
      QuietKeepsTails(s, s', l, t, u);
    }
  }

  /** The state after t has written v to the `next` of x and gone on to pc. */
  function Written(s: State, t: nat, x: int, v: int, pc: PC): State
    requires t < |s.threads| && 0 <= x < |s.mem.next|
  {
    State(s.mem.(next := s.mem.next[x := v]), s.threads[t := s.threads[t].(pc := pc)])
  }

  lemma Write1Links(s: State, t: nat, l: seq<nat>)
    requires t < |s.threads| && Links(s, l) && Arrangement(l) && s.threads[t].pc == Write1
    requires var th := s.threads[t];
      && th.left + 2 < |l|
      && th.prev == l[th.left] && th.cur == l[th.left + 1] && th.nxt == l[th.left + 2]
    ensures var th := s.threads[t];
      Links(Written(s, t, th.prev, th.nxt, Write2), SwapAt(l, th.left + 1))
  {
    var j := s.threads[t].left;
    var s', l' := Written(s, t, s.threads[t].prev, s.threads[t].nxt, Write2), SwapAt(l, j + 1);
    forall i | 0 <= i < |l'| && Mended(s', i)
      ensures s'.mem.next[l'[i]] == Succ(l', i)
    {
      assert !Torn(s'.threads[t], i);
      OthersMended(s, s', t, i);
    }
  }

  lemma Write2Links(s: State, t: nat, l: seq<nat>, v: int)
    requires t < |s.threads| && Links(s, l) && Arrangement(l) && s.threads[t].pc == Write2
    requires var th := s.threads[t];
      && th.left + 2 < |l|
      && th.cur == l[th.left + 2] && v == Succ(l, th.left + 2)
    ensures Links(Written(s, t, s.threads[t].cur, v, Write3), l)
  {
    var s' := Written(s, t, s.threads[t].cur, v, Write3);
    forall i | 0 <= i < |l| && Mended(s', i)
      ensures s'.mem.next[l[i]] == Succ(l, i)
    {
      assert !Torn(s'.threads[t], i);
      if i != s.threads[t].left + 2 { OthersMended(s, s', t, i); }
    }
  }

  lemma Write3Links(s: State, t: nat, l: seq<nat>)
    requires t < |s.threads| && Links(s, l) && Arrangement(l) && s.threads[t].pc == Write3
    requires var th := s.threads[t];
      && th.left + 2 < |l|
      && th.nxt == l[th.left + 1] && th.cur == l[th.left + 2]
    ensures Links(Written(s, t, s.threads[t].nxt, s.threads[t].cur, AddSwap), l)
  {
    var s' := Written(s, t, s.threads[t].nxt, s.threads[t].cur, AddSwap);
    forall i | 0 <= i < |l| && Mended(s', i)
      ensures s'.mem.next[l[i]] == Succ(l, i)
    {
      if i != s.threads[t].left + 1 { OthersMended(s, s', t, i); }
    }
  }

  /** t's hands are on x and l' differs from the order only inside t's window. */
  ghost predicate InOwnWindow(g: Shadow, t: nat, x: int, l': seq<nat>) {
    && Inside(g, t) && g.walkers[t].op.Swap? && g.walkers[t].high == g.walkers[t].low + 2
    && var j := g.walkers[t].low;
    && j + 2 < |g.order| == |l'|
    && (x == g.order[j] || x == g.order[j + 1] || x == g.order[j + 2])
    && forall i :: 0 <= i < |l'| && i != j + 1 && i != j + 2 ==> l'[i] == g.order[i]
  }

  /** A write of t's exchange leaves the tail link of every other exchange under way alone. */
  lemma WriteSparesTail(cfg: Config, s: State, g: Shadow, t: nat, x: int, v: int, l': seq<nat>, u: nat)
    requires AllTrack(cfg, s, g) && AllApart(cfg.shared, g) && Arrangement(g.order)
    requires |s.mem.next| == |g.order| && InOwnWindow(g, t, x, l')
    requires u < |s.threads| && u != t && TailKept(s, g.order, s.threads[u])
    ensures TailKept(s.(mem := s.mem.(next := s.mem.next[x := v])), l', s.threads[u])
  {
    assert Tracks(cfg.lens, g.order, cfg.roles[u], s.threads[u], g.walkers[u]);
    if s.threads[u].pc == Write2 { Disjoint(cfg, g, t, u); }
  }

  lemma WriteKeepsChain(cfg: Config, s: State, g: Shadow, t: nat, x: int, v: int, pc: PC, l': seq<nat>)
    requires AllTrack(cfg, s, g) && AllApart(cfg.shared, g) && Arrangement(g.order)
    requires Chained(s, g.order) && t < |s.threads| && InOwnWindow(g, t, x, l')
    requires Links(Written(s, t, x, v, pc), l')
    requires TailKept(Written(s, t, x, v, pc), l', s.threads[t].(pc := pc))
    ensures Chained(Written(s, t, x, v, pc), l')
  {
    var s' := Written(s, t, x, v, pc);
    forall u | 0 <= u < |s'.threads|
      ensures TailKept(s', l', s'.threads[u])
    {
      if u != t {
        assert TailKept(s, g.order, s.threads[u]);
        WriteSparesTail(cfg, s, g, t, x, v, l', u);
      }
    }
  }

  /** Where t's hands are while it writes. */
  ghost predicate Relinking(l: seq<nat>, th: Thread, w: Walker) {
    && w.In? && w.op.Swap? && w.low == th.left && w.high == th.left + 2 < |l|
    && th.prev == l[th.left]
    && (th.pc.Write1? ==> th.cur == l[th.left + 1] && th.nxt == l[th.left + 2])
    && (!th.pc.Write1? ==> th.nxt == l[th.left + 1] && th.cur == l[th.left + 2])
  }

  lemma RelinkingStaysInside(g: Shadow, t: nat, th: Thread, x: int, l': seq<nat>)
    requires Inside(g, t) && Relinking(g.order, th, g.walkers[t]) && (x == th.prev || x == th.cur || x == th.nxt)
    requires l' == g.order || l' == SwapAt(g.order, th.left + 1)
    ensures InOwnWindow(g, t, x, l')
  {
  }

  lemma FirstWriteKeepsTail(s: State, t: nat, l: seq<nat>, w: Walker)
    requires t < |s.threads| && |s.mem.next| == |l| && Arrangement(l)
    requires Relinking(l, s.threads[t], w) && s.threads[t].pc.Write1? && ReadsSuccessor(s.mem.next, l, w)
    ensures var th := s.threads[t];
      TailKept(Written(s, t, th.prev, th.nxt, Write2), SwapAt(l, th.left + 1), th.(pc := Write2))
  {
  }

  lemma FirstWriteKeepsChain(cfg: Config, s: State, g: Shadow, t: nat)
    requires AllTrack(cfg, s, g) && AllApart(cfg.shared, g) && Arrangement(g.order)
    requires Chained(s, g.order) && t < |s.threads| && Relinking(g.order, s.threads[t], g.walkers[t])
    requires s.threads[t].pc.Write1? && ReadsSuccessor(s.mem.next, g.order, g.walkers[t])
    ensures var th := s.threads[t];
      Chained(Written(s, t, th.prev, th.nxt, Write2), SwapAt(g.order, th.left + 1))
  {
    var th := s.threads[t];
    Write1Links(s, t, g.order);
    FirstWriteKeepsTail(s, t, g.order, g.walkers[t]);
    RelinkingStaysInside(g, t, th, th.prev, SwapAt(g.order, th.left + 1));
    WriteKeepsChain(cfg, s, g, t, th.prev, th.nxt, Write2, SwapAt(g.order, th.left + 1));
  }

  lemma SecondWriteKeepsChain(cfg: Config, s: State, g: Shadow, t: nat)
    requires AllTrack(cfg, s, g) && AllApart(cfg.shared, g) && Arrangement(g.order)
    requires Chained(s, g.order) && t < |s.threads| && Relinking(g.order, s.threads[t], g.walkers[t])
    requires s.threads[t].pc.Write2?
    ensures var th := s.threads[t];
      Chained(Written(s, t, th.cur, s.mem.next[th.nxt], Write3), g.order)
  {
    var th := s.threads[t];
    assert TailKept(s, g.order, th);
    Write2Links(s, t, g.order, s.mem.next[th.nxt]);
    RelinkingStaysInside(g, t, th, th.cur, g.order);
    WriteKeepsChain(cfg, s, g, t, th.cur, s.mem.next[th.nxt], Write3, g.order);
  }

  lemma ThirdWriteKeepsChain(cfg: Config, s: State, g: Shadow, t: nat)
    requires AllTrack(cfg, s, g) && AllApart(cfg.shared, g) && Arrangement(g.order)
    requires Chained(s, g.order) && t < |s.threads| && Relinking(g.order, s.threads[t], g.walkers[t])
    requires s.threads[t].pc.Write3?
    ensures var th := s.threads[t];
      Chained(Written(s, t, th.nxt, th.cur, AddSwap), g.order)
  {
    var th := s.threads[t];
    Write3Links(s, t, g.order);
    RelinkingStaysInside(g, t, th, th.nxt, g.order);
    WriteKeepsChain(cfg, s, g, t, th.nxt, th.cur, AddSwap, g.order);
  }

  /** The three writes of `swap_nodes`, as steps. */
  lemma WritesAre(cfg: Config, s: State, l: seq<nat>, t: nat, f: Flavor, w: Walker, choice: nat)
    requires WellFormed(cfg, s) && t < |s.threads| && cfg.roles[t] == Swapper(f) && |l| == |cfg.lens|
    requires SwapperTracks(cfg.lens, l, f, s.threads[t], w)
    requires s.threads[t].pc.Write1? || s.threads[t].pc.Write2? || s.threads[t].pc.Write3?
    ensures var th, s' := s.threads[t], Step(cfg, s, Run(t, choice));
      && Relinking(l, th, w)
      && Reordered(cfg.lens, l, w, ThreadEvent(cfg, s.mem, t, th))
         == (if th.pc.Write1? then SwapAt(l, th.left + 1) else l)
      && (th.pc.Write1? ==> s' == Written(s, t, th.prev, th.nxt, Write2))
      && (th.pc.Write2? ==> s' == Written(s, t, th.cur, s.mem.next[th.nxt], Write3))
      && (th.pc.Write3? ==> s' == Written(s, t, th.nxt, th.cur, AddSwap))
  {
  }

  lemma SwapperWriteKeepsChain(cfg: Config, s: State, g: Shadow, t: nat, f: Flavor, choice: nat)
    requires WellFormed(cfg, s) && AllTrack(cfg, s, g) && AllApart(cfg.shared, g) && Arrangement(g.order)
    requires Chained(s, g.order) && t < |s.threads| && cfg.roles[t] == Swapper(f)
    requires SwapperTracks(cfg.lens, g.order, f, s.threads[t], g.walkers[t])
    requires s.threads[t].pc.Write1? || s.threads[t].pc.Write2? || s.threads[t].pc.Write3?
    requires s.threads[t].pc.Write1? ==> ReadsSuccessor(s.mem.next, g.order, g.walkers[t])
    ensures var e := ThreadEvent(cfg, s.mem, t, s.threads[t]);
      Chained(Step(cfg, s, Run(t, choice)), Reordered(cfg.lens, g.order, g.walkers[t], e))
  {
    WritesAre(cfg, s, g.order, t, f, g.walkers[t], choice);
    if s.threads[t].pc.Write1? {
      FirstWriteKeepsChain(cfg, s, g, t);
    } else if s.threads[t].pc.Write2? {
      SecondWriteKeepsChain(cfg, s, g, t);
    } else {
      ThirdWriteKeepsChain(cfg, s, g, t);
    }
  }

  /** Away from the three writes nothing is written, and a declined exchange moves nothing. */
  lemma SearcherWritesNothing(cfg: Config, m: Memory, l: seq<nat>, t: nat, th: Thread, w: Walker, f: Flavor)
    requires MemoryOk(cfg, m) && PointsInside(cfg, th) && SearcherTracks(cfg.lens, l, f, th, w)
    ensures var r, e := SearcherStep(cfg, m, t, th, f), SearcherEvent(cfg, m, t, th, f);
      && r.mem.next == m.next && !e.Exchange?
      && !r.th.pc.Write2? && !r.th.pc.Write3?
  {
  }

  lemma SwapperWritesNothing(cfg: Config, m: Memory, l: seq<nat>, t: nat, th: Thread, w: Walker, f: Flavor,
                             choice: nat)
    requires MemoryOk(cfg, m) && PointsInside(cfg, th) && SwapperTracks(cfg.lens, l, f, th, w)
    requires !th.pc.Write1? && !th.pc.Write2? && !th.pc.Write3?
    ensures var r, e := SwapperStep(cfg, m, t, th, f, choice), SwapperEvent(cfg, m, t, th, f);
      && r.mem.next == m.next && Reordered(cfg.lens, l, w, e) == l
      && !r.th.pc.Write2? && !r.th.pc.Write3?
  {
  }

  lemma RestKeepsChain(cfg: Config, m: Memory, g: Shadow, t: nat, th: Thread, w: Walker, choice: nat)
    requires MemoryOk(cfg, m) && PointsInside(cfg, th) && t < |cfg.roles|
    requires Tracks(cfg.lens, g.order, cfg.roles[t], th, w)
    requires !th.pc.Write1? && !th.pc.Write2? && !th.pc.Write3?
    ensures var r, e := ThreadStep(cfg, m, t, th, choice), ThreadEvent(cfg, m, t, th);
      && r.mem.next == m.next && Reordered(cfg.lens, g.order, w, e) == g.order
      && !r.th.pc.Write2? && !r.th.pc.Write3?
  {
    match cfg.roles[t]
    case Searcher(f) => SearcherWritesNothing(cfg, m, g.order, t, th, w, f);
    case Swapper(f) => SwapperWritesNothing(cfg, m, g.order, t, th, w, f, choice);
  }

  lemma StepKeepsChain(cfg: Config, s: State, g: Shadow, t: nat, choice: nat)
    requires WellFormed(cfg, s) && AllTrack(cfg, s, g) && AllApart(cfg.shared, g) && Arrangement(g.order)
    requires Chained(s, g.order) && t < |s.threads|
    requires s.threads[t].pc.Write1? ==> ReadsSuccessor(s.mem.next, g.order, g.walkers[t])
    ensures Chained(Step(cfg, s, Run(t, choice)),
                    Reordered(cfg.lens, g.order, g.walkers[t], ThreadEvent(cfg, s.mem, t, s.threads[t])))
  {
    var th := s.threads[t];
    assert Tracks(cfg.lens, g.order, cfg.roles[t], s.threads[t], g.walkers[t]);
    if th.pc.Write1? || th.pc.Write2? || th.pc.Write3? {
      SwapperWriteKeepsChain(cfg, s, g, t, cfg.roles[t].f, choice);
    } else {
      RestKeepsChain(cfg, s.mem, g, t, th, g.walkers[t], choice);
      QuietKeepsChain(s, Step(cfg, s, Run(t, choice)), g.order, t);
    }
  }

  // ----- counters

  /** How much a step moves counter k together with what its thread owes it. */
  function Drift(lens: seq<nat>, m: Memory, th: Thread, w: Walker, r: Move, w': Walker, k: Counter): int {
    Value(r.mem.counters, k) - Value(m.counters, k) + Debt(lens, r.th, w', k) - Debt(lens, th, w, k)
  }

  /** A step moves no counter, owed amounts included, unless it enters the log. */
  ghost predicate SearcherSettles(cfg: Config, m: Memory, g: Shadow, t: nat, th: Thread, w: Walker, f: Flavor,
                                  k: Counter)
    requires MemoryOk(cfg, m) && PointsInside(cfg, th)
  {
    var r, e := SearcherStep(cfg, m, t, th, f), SearcherEvent(cfg, m, t, th, f);
    Drift(cfg.lens, m, th, w, r, Moved(g, w, e), k) == if e.Enter? then Earns(cfg.lens, e.op, g.serial, k) else 0
  }

  ghost predicate SwapperSettles(cfg: Config, m: Memory, g: Shadow, t: nat, th: Thread, w: Walker, f: Flavor,
                                 choice: nat, k: Counter)
    requires MemoryOk(cfg, m) && PointsInside(cfg, th)
  {
    var r, e := SwapperStep(cfg, m, t, th, f, choice), SwapperEvent(cfg, m, t, th, f);
    Drift(cfg.lens, m, th, w, r, Moved(g, w, e), k) == if e.Enter? then Earns(cfg.lens, e.op, g.serial, k) else 0
  }

  lemma SearcherReports(cfg: Config, m: Memory, g: Shadow, t: nat, th: Thread, w: Walker, f: Flavor, k: Counter)
    requires MemoryOk(cfg, m) && PointsInside(cfg, th) && SearcherTracks(cfg.lens, g.order, f, th, w)
    requires th.pc.UnlockLast? || th.pc.AddPairs? || th.pc.AddIter?
    ensures SearcherSettles(cfg, m, g, t, th, w, f, k)
  {
  }

  lemma SearcherOwes(cfg: Config, m: Memory, g: Shadow, t: nat, th: Thread, w: Walker, f: Flavor, k: Counter)
    requires MemoryOk(cfg, m) && PointsInside(cfg, th) && SearcherTracks(cfg.lens, g.order, f, th, w)
    requires !th.pc.UnlockLast? && !th.pc.AddPairs? && !th.pc.AddIter?
    ensures SearcherSettles(cfg, m, g, t, th, w, f, k)
  {
  }

  /** Thread th holds the nodes of its index in list l, and decides as an exchange run alone on l would. */
  ghost predicate DecidesOn(lens: seq<nat>, l: seq<nat>, f: Flavor, th: Thread) {
    && th.left + 2 < |l| && th.cur == l[th.left + 1] && th.nxt == l[th.left + 2]
    && (Fires(lens, Swap(f, th.left), l) <==> Wants(f, Len(lens, th.cur), Len(lens, th.nxt)))
  }

  lemma DecidesAlike(lens: seq<nat>, l: seq<nat>, f: Flavor, th: Thread, w: Walker)
    requires SwapperTracks(lens, l, f, th, w) && th.pc.CompareLR? && MeetsSnapshot(l, w)
    ensures DecidesOn(lens, l, f, th) && DecidesOn(lens, w.snap, f, th)
  {
  }

  lemma SwapperDeclines(cfg: Config, m: Memory, g: Shadow, t: nat, th: Thread, w: Walker, f: Flavor, choice: nat,
                        k: Counter)
    requires MemoryOk(cfg, m) && PointsInside(cfg, th) && SwapperTracks(cfg.lens, g.order, f, th, w)
    requires th.pc.CompareLR? && MeetsSnapshot(g.order, w)
    ensures SwapperSettles(cfg, m, g, t, th, w, f, choice, k)
  {
    DecidesAlike(cfg.lens, g.order, f, th, w);
    assert Debt(cfg.lens, th, w, k) == Earns(cfg.lens, w.op, w.snap, k);
  }

  lemma SwapperReports(cfg: Config, m: Memory, g: Shadow, t: nat, th: Thread, w: Walker, f: Flavor, choice: nat,
                       k: Counter)
    requires MemoryOk(cfg, m) && PointsInside(cfg, th) && SwapperTracks(cfg.lens, g.order, f, th, w)
    requires th.pc.Write1? || th.pc.Write2? || th.pc.Write3? || th.pc.AddSwap?
    ensures SwapperSettles(cfg, m, g, t, th, w, f, choice, k)
  {
  }

  lemma SwapperOutOwesNothing(cfg: Config, m: Memory, g: Shadow, t: nat, th: Thread, w: Walker, f: Flavor,
                              choice: nat, k: Counter)
    requires MemoryOk(cfg, m) && PointsInside(cfg, th) && SwapperTracks(cfg.lens, g.order, f, th, w)
    requires !w.In?
    ensures SwapperSettles(cfg, m, g, t, th, w, f, choice, k)
  {
  }

  lemma SwapperDoneOwesNothing(cfg: Config, m: Memory, g: Shadow, t: nat, th: Thread, w: Walker, f: Flavor,
                               choice: nat, k: Counter)
    requires MemoryOk(cfg, m) && PointsInside(cfg, th) && SwapperTracks(cfg.lens, g.order, f, th, w)
    requires w.In? && (th.pc.UnlockNext? || th.pc.UnlockCur? || th.pc.UnlockPrev?)
    ensures SwapperSettles(cfg, m, g, t, th, w, f, choice, k)
  {
  }

  lemma SwapperOwes(cfg: Config, m: Memory, g: Shadow, t: nat, th: Thread, w: Walker, f: Flavor, choice: nat,
                    k: Counter)
    requires MemoryOk(cfg, m) && PointsInside(cfg, th) && SwapperTracks(cfg.lens, g.order, f, th, w)
    requires w.In? && w.pending && !th.pc.CompareLR? && !th.pc.Write1?
    ensures SwapperSettles(cfg, m, g, t, th, w, f, choice, k)
  {
  }

  lemma Settles(cfg: Config, m: Memory, g: Shadow, t: nat, th: Thread, w: Walker, choice: nat, k: Counter)
    requires MemoryOk(cfg, m) && PointsInside(cfg, th) && t < |cfg.roles|
    requires Tracks(cfg.lens, g.order, cfg.roles[t], th, w)
    requires w.In? && w.pending ==> MeetsSnapshot(g.order, w)
    ensures var r, e := ThreadStep(cfg, m, t, th, choice), ThreadEvent(cfg, m, t, th);
      Drift(cfg.lens, m, th, w, r, Moved(g, w, e), k) == if e.Enter? then Earns(cfg.lens, e.op, g.serial, k) else 0
  {
    match cfg.roles[t]
    case Searcher(f) =>
      if th.pc.UnlockLast? || th.pc.AddPairs? || th.pc.AddIter? { SearcherReports(cfg, m, g, t, th, w, f, k); }
      else { SearcherOwes(cfg, m, g, t, th, w, f, k); }
    case Swapper(f) =>
      if th.pc.Write1? || th.pc.Write2? || th.pc.Write3? || th.pc.AddSwap? {
        SwapperReports(cfg, m, g, t, th, w, f, choice, k);
      } else if th.pc.CompareLR? {
        SwapperDeclines(cfg, m, g, t, th, w, f, choice, k);
      } else if w.In? && w.pending {
        SwapperOwes(cfg, m, g, t, th, w, f, choice, k);
      } else if w.In? {
        SwapperDoneOwesNothing(cfg, m, g, t, th, w, f, choice, k);
      } else {
        SwapperOutOwesNothing(cfg, m, g, t, th, w, f, choice, k);
      }
  }

  lemma LogGrows(cfg: Config, l0: seq<nat>, log: seq<Op>, op: Op, k: Counter)
    ensures SerialCount(cfg.lens, l0, log + [op], k)
         == SerialCount(cfg.lens, l0, log, k) + Earns(cfg.lens, op, Serial(cfg.lens, l0, log), k)
  {
    assert (log + [op])[..|log|] == log;
  }

  lemma StepKeepsBalance(cfg: Config, s: State, g: Shadow, t: nat, choice: nat)
    requires WellFormed(cfg, s) && AllTrack(cfg, s, g) && Balanced(cfg, s, g) && t < |s.threads|
    requires g.serial == Serial(cfg.lens, Fresh(cfg.Size()), g.log)
    requires g.walkers[t].In? && g.walkers[t].pending ==> MeetsSnapshot(g.order, g.walkers[t])
    ensures var e := ThreadEvent(cfg, s.mem, t, s.threads[t]);
      (e.Quiet? || e.t == t) ==> Balanced(cfg, Step(cfg, s, Run(t, choice)), Advance(cfg.lens, g, e))
  {
    var th, w, e := s.threads[t], g.walkers[t], ThreadEvent(cfg, s.mem, t, s.threads[t]);
    var s', g' := Step(cfg, s, Run(t, choice)), Advance(cfg.lens, g, e);
    var l0 := Fresh(cfg.Size());
    assert Tracks(cfg.lens, g.order, cfg.roles[t], s.threads[t], g.walkers[t]);
    if e.Quiet? || e.t == t {
      forall k: Counter
        ensures SerialCount(cfg.lens, l0, g'.log, k)
             == Value(s'.mem.counters, k) + Sum(Debts(cfg.lens, s'.threads, g'.walkers, k))
      {
        Settles(cfg, s.mem, g, t, th, w, choice, k);
        var d, d' := Debts(cfg.lens, s.threads, g.walkers, k), Debts(cfg.lens, s'.threads, g'.walkers, k);
        assert g'.walkers[t] == Moved(g, w, e);
        assert d' == d[t := Debt(cfg.lens, s'.threads[t], g'.walkers[t], k)];
        SumUpdate(d, t, d'[t]);
        if e.Enter? { LogGrows(cfg, l0, g.log, e.op, k); }
      }
    }
  }

  // ----- the simulation

  lemma EventIsOwn(cfg: Config, s: State, t: nat)
    requires WellFormed(cfg, s) && t < |s.threads|
    ensures var e := ThreadEvent(cfg, s.mem, t, s.threads[t]); e.Quiet? || e.t == t
  {
  }

  /** What t holds is what the serial list before it has there. */
  lemma SnapshotMet(cfg: Config, g: Shadow, t: nat)
    requires cfg.Valid() && Inv(cfg.lens, cfg.shared, Fresh(cfg.Size()), g) && Inside(g, t)
    requires g.walkers[t].op.Search? || g.walkers[t].pending
    ensures MeetsSnapshot(g.order, g.walkers[t])
    ensures g.walkers[t].low <= g.walkers[t].high < |g.order|
  {
    var w := g.walkers[t];
    assert Sound(cfg.lens, Fresh(cfg.Size()), g.order, g.log, g.walkers[t]);
    forall i | w.low <= i <= w.high && i < |g.order|
      ensures g.order[i] == w.snap[i]
    {
      HeldAgrees(cfg.lens, cfg.shared, Fresh(cfg.Size()), g, t, i);
    }
  }

  lemma OtherKeepsTrack(cfg: Config, s: State, g: Shadow, e: Event, u: nat)
    requires AllTrack(cfg, s, g) && AllApart(cfg.shared, g) && Arrangement(g.order) && Guard(cfg.shared, g, e)
    requires u < |s.threads| && (e.Quiet? || u != e.t)
    ensures Tracks(cfg.lens, Advance(cfg.lens, g, e).order, cfg.roles[u], s.threads[u], g.walkers[u])
  {
    assert Tracks(cfg.lens, g.order, cfg.roles[u], s.threads[u], g.walkers[u]);
    if !e.Quiet? { OtherTracksOn(cfg, s, g, e, u); }
  }

  lemma StepKeepsTrack(cfg: Config, s: State, g: Shadow, t: nat, choice: nat)
    requires Sim(cfg, s, g) && t < |s.threads|
    requires Guard(cfg.shared, g, ThreadEvent(cfg, s.mem, t, s.threads[t]))
    ensures AllTrack(cfg, Step(cfg, s, Run(t, choice)), Advance(cfg.lens, g, ThreadEvent(cfg, s.mem, t, s.threads[t])))
  {
    var e := ThreadEvent(cfg, s.mem, t, s.threads[t]);
    var s', g' := Step(cfg, s, Run(t, choice)), Advance(cfg.lens, g, e);
    EventIsOwn(cfg, s, t);
    SelfKeepsTrack(cfg, s, g, t, choice);
    forall u | 0 <= u < |s'.threads|
      ensures Tracks(cfg.lens, g'.order, cfg.roles[u], s'.threads[u], g'.walkers[u])
    {
      if u != t { OtherKeepsTrack(cfg, s, g, e, u); }
    }
  }

  lemma SelfKeepsTrack(cfg: Config, s: State, g: Shadow, t: nat, choice: nat)
    requires Sim(cfg, s, g) && t < |s.threads|
    ensures var e := ThreadEvent(cfg, s.mem, t, s.threads[t]);
      Tracks(cfg.lens, Reordered(cfg.lens, g.order, g.walkers[t], e), cfg.roles[t],
             ThreadStep(cfg, s.mem, t, s.threads[t], choice).th, Moved(g, g.walkers[t], e))
  {
    var th, w := s.threads[t], g.walkers[t];
    assert Tracks(cfg.lens, g.order, cfg.roles[t], s.threads[t], g.walkers[t]);
    assert Sound(cfg.lens, Fresh(cfg.Size()), g.order, g.log, g.walkers[t]);
    if w.In? && !th.pc.Write2? && !th.pc.Write3? { ReadIsSuccessor(cfg, s, g, t); }
    if w.In? && (w.op.Search? || w.pending) { SnapshotMet(cfg, g, t); }
    match cfg.roles[t]
    case Searcher(f) => SearcherKeepsTrack(cfg, s.mem, g, t, th, w, f);
    case Swapper(f) => SwapperKeepsTrack(cfg, s.mem, g, t, th, w, f, choice);
  }

  lemma WriterReads(cfg: Config, s: State, g: Shadow, t: nat)
    requires Sim(cfg, s, g) && t < |s.threads|
    ensures s.threads[t].pc.Write1? ==> ReadsSuccessor(s.mem.next, g.order, g.walkers[t])
  {
    assert Sound(cfg.lens, Fresh(cfg.Size()), g.order, g.log, g.walkers[t]);
    assert Tracks(cfg.lens, g.order, cfg.roles[t], s.threads[t], g.walkers[t]);
    if s.threads[t].pc.Write1? { ReadIsSuccessor(cfg, s, g, t); }
  }

  lemma ThreadSimulates(cfg: Config, s: State, g: Shadow, t: nat, choice: nat)
    requires Sim(cfg, s, g) && t < |s.threads|
    ensures Sim(cfg, Step(cfg, s, Run(t, choice)), Advance(cfg.lens, g, ThreadEvent(cfg, s.mem, t, s.threads[t])))
  {
    var e := ThreadEvent(cfg, s.mem, t, s.threads[t]);
    ThreadGuard(cfg, s, g, t);
    EventKeeps(cfg.lens, cfg.shared, Fresh(cfg.Size()), g, e);
    StepKeepsTrack(cfg, s, g, t, choice);
    StepKeepsLocks(cfg, s, g, t, choice);
    EventIsOwn(cfg, s, t);
    WriterReads(cfg, s, g, t);
    StepKeepsChain(cfg, s, g, t, choice);
    if g.walkers[t].In? && g.walkers[t].pending { SnapshotMet(cfg, g, t); }
    StepKeepsBalance(cfg, s, g, t, choice);
  }

  /** One step of any thread, or `stop`, keeps program and history in agreement. */
  lemma StepSimulates(cfg: Config, s: State, g: Shadow, a: Action)
    requires Sim(cfg, s, g)
    ensures Sim(cfg, Step(cfg, s, a), Advance(cfg.lens, g, EventOf(cfg, s, a)))
  {
    if a.Run? && a.t < |s.threads| {
      ThreadSimulates(cfg, s, g, a.t, a.choice);
    } else {
      var s' := Step(cfg, s, a);
      assert forall i :: Mended(s', i) ==> Mended(s, i);
      assert AllTrack(cfg, s', g);
    }
  }

  lemma InitSimulates(cfg: Config)
    requires cfg.Valid()
    ensures Sim(cfg, Init(cfg), History(cfg, []))
  {
    var s, g := Init(cfg), History(cfg, []);
    FreshArrangement(cfg.Size());
    forall k: Counter
      ensures SerialCount(cfg.lens, Fresh(cfg.Size()), g.log, k)
           == Value(s.mem.counters, k) + Sum(Debts(cfg.lens, s.threads, g.walkers, k))
    {
      SumZero(Debts(cfg.lens, s.threads, g.walkers, k));
    }
  }

  /** In every reachable state, under every schedule, program and history agree. */
  lemma {:induction false} Reachable(cfg: Config, acts: seq<Action>)
    requires cfg.Valid()
    ensures Sim(cfg, Exec(cfg, acts), History(cfg, acts))
  {
    if acts == [] {
      InitSimulates(cfg);
    } else {
      var before := acts[..|acts| - 1];
      Reachable(cfg, before);
      StepSimulates(cfg, Exec(cfg, before), History(cfg, before), acts[|acts| - 1]);
    }
  }
}
