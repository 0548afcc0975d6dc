/** Which locks are granted: exactly those that nobody excludes. In the rwlock build searchers hold a node
    together, and pass one another. */
module ListSharing {
  import opened ListOps
  import opened Traversals
  import opened LockedList
  import opened ListSimulation
  import opened ListSteps
  import opened ListTheorems
  import opened ListProgress

  // ----- the locks granted

  /** A waiting thread does not hold the node it asks for. */
  lemma AsksForOther(lens: seq<nat>, l: seq<nat>, role: Role, th: Thread, w: Walker)
    requires Tracks(lens, l, role, th, w) && Asked(th) != NULL && Arrangement(l)
    ensures Asked(th) !in Held(th)
  {
    AsksAhead(lens, l, role, th, w);
    if Asked(th) in Held(th) { var i := HeldInside(lens, l, role, th, w, Asked(th)); }
  }

  lemma BlockedStays(cfg: Config, m: Memory, t: nat, th: Thread)
    requires MemoryOk(cfg, m) && PointsInside(cfg, th) && t < |cfg.roles|
    requires Asked(th) != NULL && !CanTake(m.locks[Asked(th)], cfg.Shares(t))
    requires th.pc.LockFirst? && cfg.roles[t].Swapper? ==> th.prev == 0
    ensures ThreadStep(cfg, m, t, th, 0).th == th
  {
  }

  /** Nobody holds node x but threads that share it with t. */
  ghost predicate SharedOnly(cfg: Config, s: State, t: nat, x: int) {
    forall u {:trigger Held(s.threads[u])} :: 0 <= u < |s.threads| && u != t && x in Held(s.threads[u]) ==>
      cfg.Shares(t) && cfg.Shares(u)
  }

  lemma TakenMeans(cfg: Config, s: State, t: nat, x: int)
    requires LocksMatch(cfg, s) && t < |s.threads| && 0 <= x < |s.mem.locks| && x !in Held(s.threads[t])
    ensures CanTake(s.mem.locks[x], cfg.Shares(t)) <==> SharedOnly(cfg, s, t, x)
  {
    var l := s.mem.locks[x];
    assert LockKind(cfg, l);
    assert !Owns(l, t);
    if l.Exclusive? {
      assert Owns(l, l.owner);
      assert x in Held(s.threads[l.owner]);
    } else if l.Shared? {
      var u :| u in l.holders;
      assert Owns(l, u);
      assert x in Held(s.threads[u]);
    }
    forall u | 0 <= u < |s.threads| && u != t && x in Held(s.threads[u])
      ensures Owns(l, u)
    {
    }
  }

  /** In every reachable state a thread that asks for a node goes on exactly if everybody who holds it is a
      searcher of the rwlock build, and the thread is one too. */
  lemma GrantedExactly(cfg: Config, acts: seq<Action>, t: nat)
    requires cfg.Valid() && t < |cfg.roles| && Asked(Exec(cfg, acts).threads[t]) != NULL
    ensures var s := Exec(cfg, acts);
      CanMove(cfg, s, t) <==> SharedOnly(cfg, s, t, Asked(s.threads[t]))
  {
    Reachable(cfg, acts);
    GrantedAt(cfg, Exec(cfg, acts), History(cfg, acts), t);
  }

  lemma GrantedAt(cfg: Config, s: State, g: Shadow, t: nat)
    requires Sim(cfg, s, g) && t < |s.threads| && Asked(s.threads[t]) != NULL
    ensures CanMove(cfg, s, t) <==> SharedOnly(cfg, s, t, Asked(s.threads[t]))
  {
    var th := s.threads[t];
    assert PointsInside(cfg, s.threads[t]);
    assert Tracks(cfg.lens, g.order, cfg.roles[t], s.threads[t], g.walkers[t]);
    AsksForOther(cfg.lens, g.order, cfg.roles[t], th, g.walkers[t]);
    TakenMeans(cfg, s, t, Asked(th));
    if CanTake(s.mem.locks[Asked(th)], cfg.Shares(t)) {
      assert !th.pc.Done?;
      Unblocked(cfg, s, g, t);
    } else {
      BlockedStays(cfg, s.mem, t, th);
    }
  }

  /** So a searcher of the rwlock build waits only for swappers. */
  lemma ReadersPass(cfg: Config, acts: seq<Action>, t: nat)
    requires cfg.Valid() && t < |cfg.roles| && cfg.shared && cfg.roles[t].Searcher?
    requires Asked(Exec(cfg, acts).threads[t]) != NULL && !CanMove(cfg, Exec(cfg, acts), t)
    ensures exists u :: 0 <= u < |cfg.roles| && cfg.roles[u].Swapper?
                        && Asked(Exec(cfg, acts).threads[t]) in Held(Exec(cfg, acts).threads[u])
  {
    GrantedExactly(cfg, acts, t);
  }

  // ----- overtaking

  /** One step of searcher t, with what it means for the order of the operations and for another thread u. */
  lemma OneStep(cfg: Config, acts: seq<Action>, t: nat, u: nat)
    requires cfg.Valid() && t < |cfg.roles| && u < |cfg.roles| && t != u && cfg.roles[t].Searcher?
    requires PointsInside(cfg, Exec(cfg, acts).threads[t])
    ensures var s, acts', f := Exec(cfg, acts), acts + [Run(t, 0)], cfg.roles[t].f;
      var r := SearcherStep(cfg, s.mem, t, s.threads[t], f);
      var enters := s.threads[t].pc.LockFirst? && !r.th.pc.LockFirst?;
      && Exec(cfg, acts').mem == r.mem && Exec(cfg, acts').threads[t] == r.th && OtherSame(cfg, acts, acts', u)
      && HeadOrder(cfg, acts') == HeadOrder(cfg, acts) + (if enters then [Search(f)] else [])
      && Before(cfg, acts', t) == if enters then HeadOrder(cfg, acts) else Before(cfg, acts, t)
  {
    assert (acts + [Run(t, 0)])[..|acts|] == acts;
  }

  /** Thread u is where it was. */
  ghost predicate OtherSame(cfg: Config, acts: seq<Action>, acts': seq<Action>, u: nat)
    requires cfg.Valid()
  {
    && |Exec(cfg, acts').threads| == |Exec(cfg, acts).threads|
    && (u < |Exec(cfg, acts).threads| ==> Exec(cfg, acts').threads[u] == Exec(cfg, acts).threads[u])
    && Before(cfg, acts', u) == Before(cfg, acts, u)
  }

  /** Searcher t is at `pc` with nodes `cur` and `nxt`, having locked `first` after the operations `log`. */
  ghost predicate At(cfg: Config, acts: seq<Action>, t: nat, pc: PC, cur: int, nxt: int, log: seq<Op>)
    requires cfg.Valid()
  {
    var ths := Exec(cfg, acts).threads;
    t < |ths| && ths[t].pc == pc && ths[t].cur == cur && ths[t].nxt == nxt && Before(cfg, acts, t) == log
  }

  /** The list begins with nodes 1 and 2; the lock words of the first three nodes are these. */
  ghost predicate Scene(m: Memory, l0: LockWord, l1: LockWord, l2: LockWord) {
    && 2 < |m.next| == |m.locks| && m.next[0] == 1 && m.next[1] == 2 && m.running
    && m.locks[0] == l0 && m.locks[1] == l1 && m.locks[2] == l2
  }

  lemma FromStart(cfg: Config, m: Memory, t: nat, th: Thread, f: Flavor)
    requires MemoryOk(cfg, m) && PointsInside(cfg, th) && 2 <= cfg.Size() && m.running
    ensures th.pc.Start? ==> SearcherStep(cfg, m, t, th, f) == Move(m, th.(pc := Idle))
    ensures th.pc.Idle? ==> SearcherStep(cfg, m, t, th, f) == Move(m, th.(pc := LockFirst))
  {
  }

  lemma FromLockFirst(cfg: Config, m: Memory, t: nat, th: Thread, f: Flavor, l1: LockWord, l2: LockWord)
    requires MemoryOk(cfg, m) && PointsInside(cfg, th) && cfg.Shares(t) && th.pc.LockFirst?
    requires Scene(m, Free, l1, l2)
    ensures var r := SearcherStep(cfg, m, t, th, f); r.th == th.(pc := ReadA) && Scene(r.mem, Shared({t}), l1, l2)
  {
  }

  lemma FromReadA(cfg: Config, m: Memory, t: nat, th: Thread, f: Flavor, l0: LockWord, l1: LockWord, l2: LockWord)
    requires MemoryOk(cfg, m) && PointsInside(cfg, th) && th.pc.ReadA? && Scene(m, l0, l1, l2)
    ensures SearcherStep(cfg, m, t, th, f) == Move(m, th.(pc := LockA, cur := 1))
  {
  }

  lemma FromLockA(cfg: Config, m: Memory, t: nat, th: Thread, f: Flavor, l0: LockWord, l1: LockWord, l2: LockWord)
    requires MemoryOk(cfg, m) && PointsInside(cfg, th) && cfg.Shares(t) && th.pc.LockA? && th.cur == 1
    requires Scene(m, l0, l1, l2) && !l1.Exclusive?
    ensures var r := SearcherStep(cfg, m, t, th, f);
      r.th == th.(pc := UnlockFirst) && Scene(r.mem, l0, Taken(l1, t, true), l2)
  {
  }

  lemma FromUnlockFirst(cfg: Config, m: Memory, t: nat, th: Thread, f: Flavor, l1: LockWord, l2: LockWord)
    requires MemoryOk(cfg, m) && PointsInside(cfg, th) && th.pc.UnlockFirst? && Scene(m, Shared({t}), l1, l2)
    ensures var r := SearcherStep(cfg, m, t, th, f); r.th == th.(pc := ReadB, pairs := 0) && Scene(r.mem, Free, l1, l2)
  {
  }

  lemma FromReadB(cfg: Config, m: Memory, t: nat, th: Thread, f: Flavor, l0: LockWord, l1: LockWord, l2: LockWord)
    requires MemoryOk(cfg, m) && PointsInside(cfg, th) && th.pc.ReadB? && th.cur == 1 && Scene(m, l0, l1, l2)
    ensures SearcherStep(cfg, m, t, th, f) == Move(m, th.(pc := LockB, nxt := 2))
  {
  }

  lemma FromLockB(cfg: Config, m: Memory, t: nat, th: Thread, f: Flavor, l0: LockWord, l1: LockWord)
    requires MemoryOk(cfg, m) && PointsInside(cfg, th) && cfg.Shares(t) && th.pc.LockB? && th.nxt == 2
    requires Scene(m, l0, l1, Free)
    ensures var r := SearcherStep(cfg, m, t, th, f);
      r.th == th.(pc := CompareAB) && Scene(r.mem, l0, l1, Shared({t}))
  {
  }

  lemma FromCompareAB(cfg: Config, m: Memory, t: nat, th: Thread, f: Flavor)
    requires MemoryOk(cfg, m) && PointsInside(cfg, th) && th.pc.CompareAB?
    ensures var r := SearcherStep(cfg, m, t, th, f);
      r.mem == m && r.th.pc.UnlockA? && r.th.cur == th.cur && r.th.nxt == th.nxt
  {
  }

  lemma FromUnlockA(cfg: Config, m: Memory, t: nat, th: Thread, f: Flavor, l0: LockWord, l1: LockWord, l2: LockWord)
    requires MemoryOk(cfg, m) && PointsInside(cfg, th) && th.pc.UnlockA? && th.cur == 1 && th.nxt == 2
    requires Scene(m, l0, l1, l2)
    ensures var r := SearcherStep(cfg, m, t, th, f);
      r.mem.next == m.next && r.th.pc.ReadB? && r.th.cur == 2 && r.th.nxt == 2
  {
  }

  /** Two different searchers of the rwlock build. */
  predicate Readers(cfg: Config, t: nat, u: nat) {
    && cfg.Valid() && 2 <= cfg.Size() && t < |cfg.roles| && u < |cfg.roles| && t != u
    && cfg.Shares(t) && cfg.Shares(u)
  }

  /** A searcher at its start can lock `first` when that is free. */
  lemma Enters(cfg: Config, acts: seq<Action>, t: nat, u: nat, l1: LockWord, l2: LockWord)
    returns (acts': seq<Action>)
    requires Readers(cfg, t, u) && At(cfg, acts, t, Start, 0, 0, []) && Scene(Exec(cfg, acts).mem, Free, l1, l2)
    ensures OtherSame(cfg, acts, acts', u) && At(cfg, acts', t, ReadA, 0, 0, HeadOrder(cfg, acts))
    ensures Scene(Exec(cfg, acts').mem, Shared({t}), l1, l2)
    ensures |HeadOrder(cfg, acts')| == |HeadOrder(cfg, acts)| + 1
  {
    var a, f := Run(t, 0), cfg.roles[t].f;
    var a1 := acts + [a];
    var a2 := a1 + [a];
    acts' := a2 + [a];
    OneStep(cfg, acts, t, u);
    FromStart(cfg, Exec(cfg, acts).mem, t, Exec(cfg, acts).threads[t], f);
    OneStep(cfg, a1, t, u);
    FromStart(cfg, Exec(cfg, a1).mem, t, Exec(cfg, a1).threads[t], f);
    OneStep(cfg, a2, t, u);
    FromLockFirst(cfg, Exec(cfg, a2).mem, t, Exec(cfg, a2).threads[t], f, l1, l2);
  }

  /** From there it can go on to node 1 if nobody holds that exclusively, and let go of `first`. */
  lemma TakesFirst(cfg: Config, acts: seq<Action>, t: nat, u: nat, log: seq<Op>, l1: LockWord, l2: LockWord)
    returns (acts': seq<Action>)
    requires Readers(cfg, t, u) && At(cfg, acts, t, ReadA, 0, 0, log) && !l1.Exclusive?
    requires Scene(Exec(cfg, acts).mem, Shared({t}), l1, l2)
    ensures OtherSame(cfg, acts, acts', u) && At(cfg, acts', t, ReadB, 1, 0, log)
    ensures Scene(Exec(cfg, acts').mem, Free, Taken(l1, t, true), l2)
    ensures HeadOrder(cfg, acts') == HeadOrder(cfg, acts)
  {
    var a, f := Run(t, 0), cfg.roles[t].f;
    var a1 := acts + [a];
    var a2 := a1 + [a];
    acts' := a2 + [a];
    OneStep(cfg, acts, t, u);
    FromReadA(cfg, Exec(cfg, acts).mem, t, Exec(cfg, acts).threads[t], f, Shared({t}), l1, l2);
    OneStep(cfg, a1, t, u);
    FromLockA(cfg, Exec(cfg, a1).mem, t, Exec(cfg, a1).threads[t], f, Shared({t}), l1, l2);
    OneStep(cfg, a2, t, u);
    FromUnlockFirst(cfg, Exec(cfg, a2).mem, t, Exec(cfg, a2).threads[t], f, Taken(l1, t, true), l2);
  }

  lemma WalksIn(cfg: Config, acts: seq<Action>, t: nat, u: nat, l1: LockWord)
    returns (acts': seq<Action>)
    requires Readers(cfg, t, u) && At(cfg, acts, t, Start, 0, 0, []) && !l1.Exclusive?
    requires Scene(Exec(cfg, acts).mem, Free, l1, Free)
    ensures OtherSame(cfg, acts, acts', u) && At(cfg, acts', t, ReadB, 1, 0, HeadOrder(cfg, acts))
    ensures Scene(Exec(cfg, acts').mem, Free, Taken(l1, t, true), Free)
    ensures |HeadOrder(cfg, acts')| == |HeadOrder(cfg, acts)| + 1
  {
    var mid := Enters(cfg, acts, t, u, l1, Free);
    acts' := TakesFirst(cfg, mid, t, u, HeadOrder(cfg, acts), l1, Free);
  }

  /** It goes on to node 2 if that is free ... */
  lemma TakesSecond(cfg: Config, acts: seq<Action>, t: nat, u: nat, log: seq<Op>, l1: LockWord)
    returns (acts': seq<Action>)
    requires Readers(cfg, t, u) && At(cfg, acts, t, ReadB, 1, 0, log) && Scene(Exec(cfg, acts).mem, Free, l1, Free)
    ensures OtherSame(cfg, acts, acts', u) && At(cfg, acts', t, CompareAB, 1, 2, log)
    ensures Scene(Exec(cfg, acts').mem, Free, l1, Shared({t}))
  {
    var a, f := Run(t, 0), cfg.roles[t].f;
    var a1 := acts + [a];
    acts' := a1 + [a];
    OneStep(cfg, acts, t, u);
    FromReadB(cfg, Exec(cfg, acts).mem, t, Exec(cfg, acts).threads[t], f, Free, l1, Free);
    OneStep(cfg, a1, t, u);
    FromLockB(cfg, Exec(cfg, a1).mem, t, Exec(cfg, a1).threads[t], f, Free, l1);
  }

  /** ... and lets go of node 1. */
  lemma LeavesFirst(cfg: Config, acts: seq<Action>, t: nat, u: nat, log: seq<Op>, l1: LockWord)
    returns (acts': seq<Action>)
    requires Readers(cfg, t, u) && At(cfg, acts, t, CompareAB, 1, 2, log)
    requires Scene(Exec(cfg, acts).mem, Free, l1, Shared({t}))
    ensures OtherSame(cfg, acts, acts', u) && At(cfg, acts', t, ReadB, 2, 2, log)
    ensures Exec(cfg, acts').mem.next[1] == 2
  {
    var a, f := Run(t, 0), cfg.roles[t].f;
    var a1 := acts + [a];
    acts' := a1 + [a];
    OneStep(cfg, acts, t, u);
    FromCompareAB(cfg, Exec(cfg, acts).mem, t, Exec(cfg, acts).threads[t], f);
    OneStep(cfg, a1, t, u);
    FromUnlockA(cfg, Exec(cfg, a1).mem, t, Exec(cfg, a1).threads[t], f, Free, l1, Shared({t}));
  }

  lemma AtTheStart(cfg: Config, t: nat)
    requires cfg.Valid() && 2 <= cfg.Size() && t < |cfg.roles|
    ensures At(cfg, [], t, Start, 0, 0, []) && Scene(Exec(cfg, []).mem, Free, Free, Free)
  {
  }

  lemma StaysAt(cfg: Config, acts: seq<Action>, acts': seq<Action>, u: nat, pc: PC, cur: int, nxt: int, log: seq<Op>)
    requires cfg.Valid() && OtherSame(cfg, acts, acts', u) && At(cfg, acts, u, pc, cur, nxt, log)
    ensures At(cfg, acts', u, pc, cur, nxt, log)
  {
  }

  /** Searcher u passes searcher t. */
  lemma Passes(cfg: Config, acts: seq<Action>, t: nat, u: nat, log: seq<Op>, log': seq<Op>, l1: LockWord)
    returns (acts': seq<Action>)
    requires Readers(cfg, t, u) && Scene(Exec(cfg, acts).mem, Free, l1, Free)
    requires At(cfg, acts, t, ReadB, 1, 0, log) && At(cfg, acts, u, ReadB, 1, 0, log')
    ensures At(cfg, acts', t, ReadB, 1, 0, log) && At(cfg, acts', u, ReadB, 2, 2, log')
    ensures Exec(cfg, acts').mem.next[1] == 2
  {
    var mid := TakesSecond(cfg, acts, u, t, log', l1);
    StaysAt(cfg, acts, mid, t, ReadB, 1, 0, log);
    acts' := LeavesFirst(cfg, mid, u, t, log', l1);
    StaysAt(cfg, mid, acts', t, ReadB, 1, 0, log);
  }

  lemma HoldsCur(cfg: Config, acts: seq<Action>, t: nat, cur: int, nxt: int, log: seq<Op>)
    requires cfg.Valid() && At(cfg, acts, t, ReadB, cur, nxt, log)
    ensures t < |Exec(cfg, acts).threads| && Held(Exec(cfg, acts).threads[t]) == {cur} && Before(cfg, acts, t) == log
  {
  }

  /** In the rwlock build any searcher u that locks `first` after searcher t can come to hold node 1 together
      with it, and then pass it: later in head-lock order, and further on in the list. */
  lemma OvertakingHappens(cfg: Config, t: nat, u: nat) returns (both: seq<Action>, past: seq<Action>)
    requires cfg.Valid() && cfg.shared && 2 <= cfg.Size()
    requires t < |cfg.roles| && u < |cfg.roles| && t != u && cfg.roles[t].Searcher? && cfg.roles[u].Searcher?
    ensures Held(Exec(cfg, both).threads[t]) == {1} && Held(Exec(cfg, both).threads[u]) == {1}
    ensures Held(Exec(cfg, past).threads[t]) == {1} && Held(Exec(cfg, past).threads[u]) == {2}
    ensures Exec(cfg, past).mem.next[1] == 2 && |Before(cfg, past, t)| < |Before(cfg, past, u)|
  {
    AtTheStart(cfg, t);
    AtTheStart(cfg, u);
    var one := WalksIn(cfg, [], t, u, Free);
    StaysAt(cfg, [], one, u, Start, 0, 0, []);
    var log, log' := HeadOrder(cfg, []), HeadOrder(cfg, one);
    both := WalksIn(cfg, one, u, t, Shared({t}));
    StaysAt(cfg, one, both, t, ReadB, 1, 0, log);
    past := Passes(cfg, both, t, u, log, log', Shared({t} + {u}));
    HoldsCur(cfg, both, t, 1, 0, log);
    HoldsCur(cfg, both, u, 1, 0, log');
    HoldsCur(cfg, past, t, 1, 0, log);
    HoldsCur(cfg, past, u, 2, 2, log');
  }
}
