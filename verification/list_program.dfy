/** The running program: shared arrays of `next` fields and lock words, and the threads' own variables,
    updated in place, one step of one thread at a time. Every method is proved against the step
    function of `LockedList`, so all that is proved of its runs holds of this object. */
module ListProgram {
  import opened ListOps
  import opened LockedList
  import opened ListTheorems

  /** The part of `swap_pairs` that runs with all three locks, or gives them back. */
  predicate AtExchange(pc: PC) {
    || pc.CompareLR? || pc.Write1? || pc.Write2? || pc.Write3? || pc.AddSwap?
    || pc.UnlockNext? || pc.UnlockCur? || pc.UnlockPrev?
  }

  /** `search_pairs` up to its loop over the nodes. */
  predicate AtHead(pc: PC) {
    pc.LockFirst? || pc.ReadA? || pc.EmptyUnlock? || pc.EmptyCount? || pc.LockA? || pc.UnlockFirst?
  }

  predicate AtPairs(pc: PC) {
    pc.ReadB? || pc.LockB? || pc.CompareAB? || pc.UnlockA? || pc.UnlockLast?
  }

  /** Do the lengths of the two nodes a searcher holds make a pair of flavor f? */
  predicate Counts(cfg: Config, f: Flavor, th: Thread) {
    && PointsInside(cfg, th)
    && (f == Asc ==> cfg.lens[th.cur] < cfg.lens[th.nxt])
    && (f == Desc ==> cfg.lens[th.cur] > cfg.lens[th.nxt])
    && (f == Equality ==> cfg.lens[th.cur] == cfg.lens[th.nxt])
  }

  /** Do the lengths of the two nodes to be compared ask a swapper of flavor f for an exchange? */
  predicate Exchanges(cfg: Config, f: Flavor, th: Thread) {
    && PointsInside(cfg, th)
    && (f == Asc ==> cfg.lens[th.cur] > cfg.lens[th.nxt])
    && (f == Desc ==> cfg.lens[th.cur] < cfg.lens[th.nxt])
    && (f == Equality ==> cfg.lens[th.cur] != cfg.lens[th.nxt])
  }

  lemma SearcherMeans(cfg: Config, m: Memory, t: nat, th: Thread, f: Flavor)
    requires MemoryOk(cfg, m) && PointsInside(cfg, th)
    ensures var th' := SearcherStep(cfg, m, t, th, f).th;
      && (th.pc.Idle? ==> th'.pc == if m.running then LockFirst else Done)
      && (th.pc.CompareAB? ==> th'.pairs == th.pairs + if Counts(cfg, f, th) then 1 else 0)
  {
  }

  lemma SwapperMeans(cfg: Config, m: Memory, t: nat, th: Thread, f: Flavor, choice: nat)
    requires MemoryOk(cfg, m) && PointsInside(cfg, th)
    ensures var th' := SwapperStep(cfg, m, t, th, f, choice).th;
      && (th.pc.Idle? ==> th'.pc == if m.running then Choose else Done)
      && (th.pc.Choose? && 2 <= cfg.Size() ==> th'.left == choice % (cfg.Size() - 1))
      && (th.pc.CompareLR? ==> th'.pc == if Exchanges(cfg, f, th) then Write1 else UnlockNext)
  {
  }

  class Program {
    const cfg: Config
    var next: array<int>
    var locks: array<LockWord>
    var running: bool
    var counters: map<Counter, int>
    var threads: array<Thread>

    ghost predicate Valid()
      reads this, next, locks, threads
    {
      && locks as object != threads as object && next as object != locks as object
      && next as object != threads as object
      && WellFormed(cfg, View())
    }

    ghost function View(): State
      reads this, next, locks, threads
    {
      State(Memory(next[..], locks[..], running, counters), threads[..])
    }

    /** The storage of `storage_init`, all locks free, all threads at their start. */
    constructor (cfg: Config)
      requires cfg.Valid()
      ensures this.cfg == cfg && Valid() && View() == Init(cfg)
      ensures fresh(next) && fresh(locks) && fresh(threads)
    {
      this.cfg := cfg;
      running := true;
      counters := map[];
      next := new int[|cfg.lens|](_ => NULL);
      locks := new LockWord[|cfg.lens|](_ => Free);
      threads := new Thread[|cfg.roles|](_ => Thread(Start, 0, 0, 0, 0, 0, 0));
      new;
      var prev := 0;
      while prev + 1 < |cfg.lens|
        invariant 0 <= prev < |cfg.lens| == next.Length && fresh(next) && fresh(locks) && fresh(threads)
        invariant next as object != locks as object && next as object != threads as object
        invariant locks as object != threads as object && running && counters == map[]
        invariant forall i :: 0 <= i < next.Length ==> next[i] == if i < prev then i + 1 else NULL
        invariant locks[..] == Init(cfg).mem.locks && threads[..] == Init(cfg).threads
      {
        next[prev] := prev + 1;
        prev := prev + 1;
      }
      assert next[..] == Init(cfg).mem.next;
    }

    /** Thread t tries to lock node x. */
    method TryLock(t: nat, x: int) returns (granted: bool)
      requires 0 <= x < locks.Length
      modifies locks
      ensures granted == CanTake(old(locks[x]), cfg.Shares(t))
      ensures locks[..] == if granted then old(locks[..])[x := Taken(old(locks[x]), t, cfg.Shares(t))]
                           else old(locks[..])
    {
      granted := CanTake(locks[x], cfg.Shares(t));
      if granted { locks[x] := Taken(locks[x], t, cfg.Shares(t)); }
    }

    method Unlock(t: nat, x: int)
      requires 0 <= x < locks.Length
      modifies locks
      ensures locks[..] == old(locks[..])[x := Released(old(locks[x]), t)]
    {
      locks[x] := Released(locks[x], t);
    }

    /** A searcher that takes its first two locks, or finds the list empty. */
    method Enter(t: nat, f: Flavor)
      requires Valid() && t < threads.Length && AtHead(threads[t].pc)
      modifies this`counters, locks, threads
      ensures var r := SearcherStep(cfg, old(View()).mem, t, old(threads[t]), f);
        View() == State(r.mem, old(View()).threads[t := r.th])
    {
      var th := threads[t];
      assert PointsInside(cfg, th);
      if th.pc.LockFirst? {
        var ok := TryLock(t, 0);
        if ok { threads[t] := th.(pc := ReadA); }
      } else if th.pc.ReadA? {
        if next[0] == NULL { threads[t] := th.(pc := EmptyUnlock); }
        else { threads[t] := th.(pc := LockA, cur := next[0]); }
      } else if th.pc.EmptyUnlock? {
        Unlock(t, 0);
        threads[t] := th.(pc := EmptyCount);
      } else if th.pc.EmptyCount? {
        counters := Bump(counters, Iterations(f), 1);
        threads[t] := th.(pc := Idle);
      } else if th.pc.LockA? {
        var ok := TryLock(t, th.cur);
        if ok { threads[t] := th.(pc := UnlockFirst); }
      } else {
        Unlock(t, 0);
        threads[t] := th.(pc := ReadB, pairs := 0);
      }
    }

    /** A searcher in the loop over the nodes. */
    method Traverse(t: nat, f: Flavor)
      requires Valid() && t < threads.Length && AtPairs(threads[t].pc)
      modifies locks, threads
      ensures var r := SearcherStep(cfg, old(View()).mem, t, old(threads[t]), f);
        View() == State(r.mem, old(View()).threads[t := r.th])
    {
      var th := threads[t];
      assert PointsInside(cfg, th);
      if th.pc.ReadB? {
        if next[th.cur] == NULL { threads[t] := th.(pc := UnlockLast); }
        else { threads[t] := th.(pc := LockB, nxt := next[th.cur]); }
      } else if th.pc.LockB? {
        var ok := TryLock(t, th.nxt);
        if ok { threads[t] := th.(pc := CompareAB); }
      } else if th.pc.CompareAB? {
        var hit := Hit(f, Len(cfg.lens, th.cur), Len(cfg.lens, th.nxt));
        threads[t] := th.(pc := UnlockA, pairs := if hit then th.pairs + 1 else th.pairs);
      } else if th.pc.UnlockA? {
        Unlock(t, th.cur);
        threads[t] := th.(pc := ReadB, cur := th.nxt);
      } else {
        Unlock(t, th.cur);
        threads[t] := th.(pc := AddPairs);
      }
    }

    /** A searcher between two traversals: the counters, and the test of `is_running`. */
    method Report(t: nat, f: Flavor)
      requires Valid() && t < threads.Length && !AtHead(threads[t].pc) && !AtPairs(threads[t].pc)
      modifies this`counters, threads
      ensures var r := SearcherStep(cfg, old(View()).mem, t, old(threads[t]), f);
        View() == State(r.mem, old(View()).threads[t := r.th])
    {
      var th := threads[t];
      if th.pc.Start? {
        threads[t] := th.(pc := if cfg.Size() < 2 then Done else Idle);
      } else if th.pc.Idle? {
        threads[t] := th.(pc := if running then LockFirst else Done);
      } else if th.pc.AddPairs? {
        if th.pairs != 0 { counters := Bump(counters, PairCount(f), th.pairs); }
        threads[t] := th.(pc := AddIter);
      } else if th.pc.AddIter? {
        counters := Bump(counters, Iterations(f), 1);
        threads[t] := th.(pc := Idle);
      }
    }

    /** One step of the searcher t. It writes no `next` and touches no other thread. */
    method Search(t: nat, f: Flavor)
      requires Valid() && t < threads.Length
      modifies this`counters, locks, threads
      ensures next[..] == old(next[..])
      ensures forall u :: 0 <= u < threads.Length && u != t ==> threads[u] == old(threads[u])
      ensures old(threads[t]).pc.Idle? ==> threads[t].pc == if running then LockFirst else Done
      ensures old(threads[t]).pc.CompareAB? ==>
                threads[t].pairs == old(threads[t]).pairs + if Counts(cfg, f, old(threads[t])) then 1 else 0
      ensures var r := SearcherStep(cfg, old(View()).mem, t, old(threads[t]), f);
        View() == State(r.mem, old(View()).threads[t := r.th])
    {
      ghost var before := threads[..];
      assert PointsInside(cfg, threads[t]);
      SearcherMeans(cfg, View().mem, t, threads[t], f);
      if AtHead(threads[t].pc) {
        Enter(t, f);
      } else if AtPairs(threads[t].pc) {
        Traverse(t, f);
      } else {
        Report(t, f);
      }
      assert threads[..] == before[t := threads[t]];
    }

    /** A swapper with its three locks: the decision, the writes of `swap_nodes`, the unlocking. */
    method Exchange(t: nat, f: Flavor)
      requires Valid() && t < threads.Length
      modifies this`counters, next, locks, threads
      requires AtExchange(threads[t].pc)
      ensures forall x :: 0 <= x < next.Length && x != WritesNext(old(threads[t])) ==> next[x] == old(next[x])
      ensures var r := SwapperStep(cfg, old(View()).mem, t, old(threads[t]), f, 0);
        View() == State(r.mem, old(View()).threads[t := r.th])
    {
      var th := threads[t];
      assert PointsInside(cfg, th);
      match th.pc
      case CompareLR =>
        var wants := Wants(f, Len(cfg.lens, th.cur), Len(cfg.lens, th.nxt));
        threads[t] := th.(pc := if wants then Write1 else UnlockNext);
      case Write1 =>
        next[th.prev] := th.nxt;
        threads[t] := th.(pc := Write2);
      case Write2 =>
        next[th.cur] := next[th.nxt];
        threads[t] := th.(pc := Write3);
      case Write3 =>
        next[th.nxt] := th.cur;
        threads[t] := th.(pc := AddSwap);
      case AddSwap =>
        counters := Bump(counters, Swaps(f), 1);
        threads[t] := th.(pc := UnlockNext);
      case UnlockNext =>
        Unlock(t, th.nxt);
        threads[t] := th.(pc := UnlockCur);
      case UnlockCur =>
        Unlock(t, th.cur);
        threads[t] := th.(pc := UnlockPrev);
      case UnlockPrev =>
        Unlock(t, th.prev);
        threads[t] := th.(pc := Idle);
      case _ =>
    }

    /** A swapper that moves its window: the third lock, and giving back the first. */
    method Slide(t: nat, f: Flavor)
      requires Valid() && t < threads.Length
      requires threads[t].pc.WalkLock? || threads[t].pc.WalkUnlock? || threads[t].pc.LockRight?
      modifies locks, threads
      ensures var r := SwapperStep(cfg, old(View()).mem, t, old(threads[t]), f, 0);
        View() == State(r.mem, old(View()).threads[t := r.th])
    {
      var th := threads[t];
      assert PointsInside(cfg, th);
      if th.pc.WalkLock? {
        var ok := TryLock(t, th.nxt);
        if ok { threads[t] := th.(pc := WalkUnlock); }
      } else if th.pc.WalkUnlock? {
        Unlock(t, th.prev);
        threads[t] := th.(pc := Walk, prev := th.cur, cur := th.nxt, i := th.i + 1);
      } else {
        var ok := TryLock(t, th.nxt);
        if ok { threads[t] := th.(pc := CompareLR); }
      }
    }

    /** A swapper with its two locks: looking for the next node, or leaving early. */
    method Approach(t: nat, f: Flavor)
      requires Valid() && t < threads.Length
      requires threads[t].pc.Walk? || threads[t].pc.ReadRight? || threads[t].pc.BailCur? || threads[t].pc.BailPrev?
      modifies locks, threads
      ensures var r := SwapperStep(cfg, old(View()).mem, t, old(threads[t]), f, 0);
        View() == State(r.mem, old(View()).threads[t := r.th])
    {
      var th := threads[t];
      assert PointsInside(cfg, th);
      if th.pc.Walk? {
        if th.i < th.left && next[th.cur] != NULL { threads[t] := th.(pc := WalkLock, nxt := next[th.cur]); }
        else { threads[t] := th.(pc := ReadRight); }
      } else if th.pc.ReadRight? {
        if next[th.cur] == NULL { threads[t] := th.(pc := BailCur); }
        else { threads[t] := th.(pc := LockRight, nxt := next[th.cur]); }
      } else if th.pc.BailCur? {
        Unlock(t, th.cur);
        threads[t] := th.(pc := BailPrev);
      } else {
        Unlock(t, th.prev);
        threads[t] := th.(pc := Idle);
      }
    }

    /** A swapper between two operations. */
    method Prepare(t: nat, f: Flavor, choice: nat)
      requires Valid() && t < threads.Length
      requires threads[t].pc.Start? || threads[t].pc.Idle? || threads[t].pc.Choose?
      modifies threads
      ensures var r := SwapperStep(cfg, old(View()).mem, t, old(threads[t]), f, choice);
        View() == State(r.mem, old(View()).threads[t := r.th])
    {
      var th := threads[t];
      if th.pc.Start? {
        threads[t] := th.(pc := if cfg.Size() < 2 then Done else Idle);
      } else if th.pc.Idle? {
        threads[t] := th.(pc := if running then Choose else Done);
      } else {
        var left := if cfg.Size() < 2 then 0 else choice % (cfg.Size() - 1);
        threads[t] := th.(pc := LockFirst, left := left, prev := 0);
      }
    }

    /** A swapper at the head of the list: the first two locks, or leaving an empty list. */
    method Begin(t: nat, f: Flavor)
      requires Valid() && t < threads.Length
      requires threads[t].pc.LockFirst? || threads[t].pc.ReadCur? || threads[t].pc.EmptyBail? || threads[t].pc.LockCur?
      modifies locks, threads
      ensures var r := SwapperStep(cfg, old(View()).mem, t, old(threads[t]), f, 0);
        View() == State(r.mem, old(View()).threads[t := r.th])
    {
      var th := threads[t];
      assert PointsInside(cfg, th);
      if th.pc.LockFirst? {
        var ok := TryLock(t, th.prev);
        if ok { threads[t] := th.(pc := ReadCur); }
      } else if th.pc.ReadCur? {
        if next[th.prev] == NULL { threads[t] := th.(pc := EmptyBail); }
        else { threads[t] := th.(pc := LockCur, cur := next[th.prev]); }
      } else if th.pc.EmptyBail? {
        Unlock(t, th.prev);
        threads[t] := th.(pc := Idle);
      } else {
        var ok := TryLock(t, th.cur);
        if ok { threads[t] := th.(pc := Walk, i := 0); }
      }
    }

    /** One step of the swapper t. It writes at most the one `next` that `WritesNext` names, at one of the
        three writes of an exchange, and touches no other thread. */
    method Swap(t: nat, f: Flavor, choice: nat)
      requires Valid() && t < threads.Length
      modifies this`counters, next, locks, threads
      ensures forall x :: 0 <= x < next.Length && x != WritesNext(old(threads[t])) ==> next[x] == old(next[x])
      ensures forall u :: 0 <= u < threads.Length && u != t ==> threads[u] == old(threads[u])
      ensures old(threads[t]).pc.Idle? ==> threads[t].pc == if running then Choose else Done
      ensures old(threads[t]).pc.Choose? && 2 <= cfg.Size() ==> threads[t].left == choice % (cfg.Size() - 1)
      ensures old(threads[t]).pc.CompareLR? ==>
                threads[t].pc == if Exchanges(cfg, f, old(threads[t])) then Write1 else UnlockNext
      ensures var r := SwapperStep(cfg, old(View()).mem, t, old(threads[t]), f, choice);
        View() == State(r.mem, old(View()).threads[t := r.th])
    {
      var th := threads[t];
      assert PointsInside(cfg, th);
      SwapperMeans(cfg, View().mem, t, th, f, choice);
      if AtExchange(th.pc) {
        Exchange(t, f);
      } else if th.pc.WalkLock? || th.pc.WalkUnlock? || th.pc.LockRight? {
        Slide(t, f);
      } else if th.pc.Walk? || th.pc.ReadRight? || th.pc.BailCur? || th.pc.BailPrev? {
        Approach(t, f);
      } else if th.pc.Start? || th.pc.Idle? || th.pc.Choose? {
        Prepare(t, f, choice);
      } else if th.pc.LockFirst? || th.pc.ReadCur? || th.pc.EmptyBail? || th.pc.LockCur? {
        Begin(t, f);
      }
    }

    /** One action of the schedule. */
    method Act(a: Action)
      requires Valid()
      modifies this`running, this`counters, next, locks, threads
      ensures Valid() && View() == Step(cfg, old(View()), a)
    {
      match a
      case Stop => running := false;
      case Run(t, choice) =>
        if t < threads.Length {
          match cfg.roles[t]
          case Searcher(f) => Search(t, f);
          case Swapper(f) => Swap(t, f, choice);
        }
    }
  }

  /** Run the program under a schedule. */
  method RunProgram(cfg: Config, acts: seq<Action>) returns (p: Program)
    requires cfg.Valid()
    ensures p.Valid() && p.cfg == cfg && p.View() == Exec(cfg, acts)
    ensures Quiescent(p.View()) ==> Spells(p.next[..], SerialList(cfg, HeadOrder(cfg, acts)))
  {
    p := new Program(cfg);
    assert acts[..0] == [];
    for k := 0 to |acts|
      invariant p.Valid() && p.cfg == cfg && p.View() == Exec(cfg, acts[..k])
      invariant fresh(p) && fresh(p.next) && fresh(p.locks) && fresh(p.threads)
    {
      assert acts[..k + 1][..k] == acts[..k];
      p.Act(acts[k]);
    }
    assert acts[..|acts|] == acts;
    if Quiescent(p.View()) { SerialEquivalence(cfg, acts); }
  }
}
