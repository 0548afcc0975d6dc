/** The process at run time: handles, queue nodes and the threads' own variables, updated in place one
    shared access at a time. Every method is proved against the step functions of `Lifecycle`, so all
    that is proved of its runs holds of this object. */
module LifecycleProgram {
  import opened Lifecycle
  import opened LifecycleSteps
  import opened LifecycleTheorems

  class Process {
    const cfg: Config
    var handles: array<Handle>
    var nodes: array<Node>
    var head: int
    var tail: int
    var count: int
    var locked: bool
    var started: bool
    var cloned: bool
    var dozing: bool
    var agents: array<Agent>
    var reaper: Reaper

    ghost function Shared(): Memory
      reads this, handles, nodes
    {
      Memory(handles[..], nodes[..], head, tail, count, locked, started, cloned, dozing)
    }

    ghost function View(): State
      reads this, handles, nodes, agents
    {
      State(Shared(), agents[..], reaper)
    }

    ghost predicate Apart()
      reads this
    {
      && handles as object != nodes as object && handles as object != agents as object
      && nodes as object != agents as object
    }

    ghost predicate Valid()
      reads this, handles, nodes, agents
    {
      Apart() && WellFormed(cfg, View())
    }

    /** `mythread_create` for every handle, and the calls not yet begun. */
    constructor (cfg: Config)
      requires cfg.Valid()
      ensures this.cfg == cfg && Valid() && View() == Init(cfg)
      ensures fresh(handles) && fresh(nodes) && fresh(agents)
    {
      this.cfg := cfg;
      handles := new Handle[cfg.size](_ => Handle(false, CLEAR, 0, 0, []));
      nodes := new Node[cfg.Agents()](_ => Node(NULL, NULL, 0));
      agents := new Agent[cfg.Agents()](t =>
        Agent(if t < cfg.size then Running else LoadWord, CLEAR, 0, NULL, Pending));
      head, tail, count := NULL, NULL, 0;
      locked, started, cloned, dozing := false, false, false, false;
      reaper := Reaper(Off, NULL, NULL, NULL, 0);
      new;
      assert View() == Init(cfg);
    }

    /** FUTEX_WAKE of one waiter on handle h. */
    method Wake(h: nat, choice: nat)
      requires h < handles.Length
      modifies handles
      ensures handles[..]
           == old(handles[..])[h := old(handles[h]).(waiters := WakeOne(old(handles[h]).waiters, choice))]
    {
      var ws := handles[h].waiters;
      if |ws| > 0 {
        var k := if choice < |ws| then choice else 0;
        handles[h] := handles[h].(waiters := ws[..k] + ws[k + 1..]);
      }
    }

    /** The fetch_or of one bit; returns the word before. */
    method FetchOr(h: nat, queued: bool, reaped: bool) returns (prev: Word)
      requires h < handles.Length
      modifies handles
      ensures prev == old(handles[h]).word
      ensures handles[..] == old(handles[..])[h := old(handles[h]).(word :=
                               prev.(queued := prev.queued || queued, reaped := prev.reaped || reaped))]
    {
      prev := handles[h].word;
      handles[h] := handles[h].(word := prev.(queued := prev.queued || queued, reaped := prev.reaped || reaped));
    }

    /** One step of `thread_startup` before the hand-over, on its own handle; it frees nothing. */
    method Exit(t: nat, choice: nat) returns (a: Agent)
      requires t < handles.Length && t < agents.Length
      modifies handles
      ensures forall x :: 0 <= x < handles.Length && x != t ==> handles[x] == old(handles[x])
      ensures handles[t].freed == old(handles[t].freed)
      ensures var o := ExitStep(old(handles[t]), old(agents[t]), choice);
        a == o.a && handles[..] == old(handles[..])[t := o.hd]
    {
      a := agents[t];
      match a.pc
      case Running => a := a.(pc := StoreValue, val := choice);
      case StoreValue =>
        handles[t] := handles[t].(retval := a.val);
        a := a.(pc := StoreFinished);
      case StoreFinished =>
        handles[t] := handles[t].(finished := true);
        a := a.(pc := WakeJoiner);
      case WakeJoiner =>
        Wake(t, choice);
        a := a.(pc := LoadState);
      case LoadState =>
        if handles[t].word.detached { a := a.(pc := MarkQueued); } else { a := Return(a, Success); }
      case MarkQueued =>
        var prev := FetchOr(t, true, false);
        if prev.queued { a := Return(a, Success); } else { a := a.(pc := StartReaper); }
      case _ =>
    }

    /** One step of `mythread_join`, on its handle alone; only its last step frees it. */
    method Join(t: nat, h: nat, wants: bool) returns (a: Agent)
      requires h < handles.Length && t < agents.Length
      modifies handles
      ensures forall x :: 0 <= x < handles.Length && x != h ==> handles[x] == old(handles[x])
      ensures handles[h].freed != old(handles[h].freed) <==> old(agents[t]).pc.FreeHandle?
      ensures var o := JoinStep(old(handles[h]), t, wants, old(agents[t]));
        a == o.a && handles[..] == old(handles[..])[h := o.hd]
    {
      a := agents[t];
      var hd := handles[h];
      match a.pc
      case LoadWord => a := a.(pc := TryJoin, s := hd.word);
      case TryJoin =>
        if a.s.detached || a.s.joined {
          a := Return(a, Invalid);
        } else if hd.word == a.s {
          handles[h] := hd.(word := a.s.(joined := true));
          a := a.(pc := CheckFinished);
        } else {
          a := a.(s := hd.word);
        }
      case CheckFinished => a := a.(pc := if hd.finished then ReadValue else Wait);
      case Wait =>
        if hd.finished {
          a := a.(pc := CheckFinished);
        } else {
          handles[h] := hd.(waiters := hd.waiters + [t]);
          a := a.(pc := Asleep);
        }
      case Asleep => if t !in hd.waiters { a := a.(pc := CheckFinished); }
      case ReadValue =>
        if wants { a := a.(val := hd.retval); }
        a := a.(pc := MarkReaped);
      case MarkReaped =>
        var prev := FetchOr(h, false, true);
        if prev.reaped { a := Return(a, Success); } else { a := a.(pc := FreeHandle); }
      case FreeHandle =>
        handles[h] := hd.(freed := hd.freed + 1);
        a := Return(a, Success);
      case _ =>
    }

    /** One step of `mythread_detach` before the hand-over, on its handle alone; it frees nothing. */
    method Detach(t: nat, h: nat, fails: bool) returns (a: Agent)
      requires h < handles.Length && t < agents.Length
      modifies handles
      ensures forall x :: 0 <= x < handles.Length && x != h ==> handles[x] == old(handles[x])
      ensures handles[h].freed == old(handles[h].freed) && handles[h].finished == old(handles[h].finished)
      ensures var o := DetachStep(old(handles[h]), old(agents[t]), fails);
        a == o.a && handles[..] == old(handles[..])[h := o.hd]
    {
      a := agents[t];
      var hd := handles[h];
      match a.pc
      case LoadWord => a := a.(pc := TryDetach, s := hd.word);
      case TryDetach =>
        if a.s.detached {
          a := Return(a, AlreadyDetached);
        } else if a.s.joined {
          a := Return(a, Invalid);
        } else if hd.word == a.s && !fails {
          handles[h] := hd.(word := a.s.(detached := true));
          a := a.(pc := LoadFinished);
        } else {
          a := a.(s := hd.word);
        }
      case LoadFinished => if hd.finished { a := a.(pc := MarkQueued); } else { a := Return(a, Success); }
      case MarkQueued =>
        var prev := FetchOr(h, true, false);
        if prev.queued { a := Return(a, Success); } else { a := a.(pc := StartReaper); }
      case _ =>
    }

    /** One step of `start_reaper`. */
    method Start(t: nat, h: nat) returns (a: Agent)
      requires Valid() && t < agents.Length && h < handles.Length
      requires agents[t].pc.StartReaper? || agents[t].pc.CloneReaper?
      modifies this`started, this`cloned
      ensures var o := HandOverStep(cfg, old(Shared()), t, h, old(agents[t]), false);
        Shared() == o.mem && a == o.a
    {
      a := agents[t];
      if a.pc.CloneReaper? {
        cloned := true;
        a := a.(pc := Alloc);
      } else if started {
        a := a.(pc := Alloc);
      } else {
        started := true;
        a := a.(pc := CloneReaper);
      }
    }

    /** One step of `reap_enqueue` up to the link; nodes are written by the allocation and by the link only. */
    method Link(t: nat, h: nat, fails: bool) returns (a: Agent)
      requires Valid() && t < agents.Length && h < handles.Length
      requires Unlinked(agents[t].pc) && !agents[t].pc.StartReaper? && !agents[t].pc.CloneReaper?
      modifies this`head, this`locked, nodes
      ensures forall x :: 0 <= x < nodes.Length && nodes[x] != old(nodes[x]) ==>
                (x == t && old(agents[t]).pc.Alloc?) || (x == old(agents[t]).oldTail && old(agents[t]).pc.LinkOld?)
      ensures var o := HandOverStep(cfg, old(Shared()), t, h, old(agents[t]), fails);
        Shared() == o.mem && a == o.a
    {
      a := agents[t];
      assert AgentInside(cfg, a);
      if a.pc.Alloc? {
        nodes[t] := Node(h, NULL, 0);
        a := a.(pc := Lock);
      } else if a.pc.Lock? {
        if !locked && !fails {
          locked := true;
          a := a.(pc := ReadTail);
        }
      } else if a.pc.ReadTail? {
        a := a.(pc := if tail == NULL then WriteHead else ReadOldTail);
      } else if a.pc.WriteHead? {
        head := t;
        a := a.(pc := WriteTail);
      } else if a.pc.ReadOldTail? {
        a := a.(pc := LinkOld, oldTail := tail);
      } else if a.oldTail == NULL {
        a := a.(pc := Crashed);
      } else {
        nodes[a.oldTail] := nodes[a.oldTail].(next := t);
        a := a.(pc := WriteTail);
      }
    }

    /** One step of `reap_enqueue` after the link; nodes are left alone. */
    method Count(t: nat, h: nat) returns (a: Agent)
      requires Valid() && t < agents.Length && h < handles.Length
      requires HandingOver(agents[t].pc) && !Unlinked(agents[t].pc)
      modifies this`tail, this`locked, this`count, this`dozing
      ensures var o := HandOverStep(cfg, old(Shared()), t, h, old(agents[t]), false);
        Shared() == o.mem && a == o.a
    {
      a := agents[t];
      if a.pc.WriteTail? {
        tail := t;
        a := a.(pc := Unlock);
      } else if a.pc.Unlock? {
        locked := false;
        a := a.(pc := AddCount);
      } else if a.pc.AddCount? {
        var before := count;
        count := count + 1;
        if before == 0 { a := a.(pc := WakeReaper); } else { a := Return(a, Success); }
      } else {
        dozing := false;
        a := Return(a, Success);
      }
    }

    /** One step of `start_reaper` or `reap_enqueue`. */
    method HandOver(t: nat, h: nat, fails: bool) returns (a: Agent)
      requires Valid() && t < agents.Length && h < handles.Length && HandingOver(agents[t].pc)
      modifies this`head, this`tail, this`count, this`locked, this`started, this`cloned, this`dozing, nodes
      ensures forall x :: 0 <= x < nodes.Length && nodes[x] != old(nodes[x]) ==>
                (x == t && old(agents[t]).pc.Alloc?) || (x == old(agents[t]).oldTail && old(agents[t]).pc.LinkOld?)
      ensures var o := HandOverStep(cfg, old(Shared()), t, h, old(agents[t]), fails);
        Shared() == o.mem && a == o.a
    {
      if agents[t].pc.StartReaper? || agents[t].pc.CloneReaper? {
        a := Start(t, h);
      } else if Unlinked(agents[t].pc) {
        a := Link(t, h, fails);
      } else {
        a := Count(t, h);
      }
    }

    /** One step of agent t on its own handle. */
    method Own(t: nat, choice: nat, fails: bool) returns (a: Agent)
      requires Valid() && t < agents.Length && cfg.RoleOf(t).h != NULL
      modifies handles
      ensures var h := cfg.RoleOf(t).h;
        var o := OwnStep(old(handles[h]), t, cfg.RoleOf(t), old(agents[t]), choice, fails);
        a == o.a && handles[..] == old(handles[..])[h := o.hd]
    {
      match cfg.RoleOf(t)
      case Exiter(_) => a := Exit(t, choice);
      case Joiner(h, wants) => a := Join(t, h, wants);
      case Detacher(h) => a := Detach(t, h, fails);
    }

    /** One step of agent t. */
    method Advance(t: nat, choice: nat, fails: bool)
      requires Valid() && t < agents.Length
      modifies this, handles, nodes, agents
      ensures handles == old(handles) && nodes == old(nodes) && agents == old(agents)
      ensures Valid() && View() == Step(cfg, old(View()), Run(t, choice, fails))
    {
      assert AgentInside(cfg, agents[t]);
      var role, a := cfg.RoleOf(t), agents[t];
      if role.h == NULL {
        a := Return(a, Invalid);
      } else if HandingOver(a.pc) {
        a := HandOver(t, role.h, fails);
      } else {
        a := Own(t, choice, fails);
      }
      agents[t] := a;
    }

    /** One step of `reap_dequeue`. */
    method Dequeue(fails: bool)
      requires Valid() && Dequeuing(reaper)
      modifies this`locked, this`head, this`tail, this`reaper
      ensures var o := DequeueStep(cfg, old(Shared()), old(reaper), fails);
        Shared() == o.mem && reaper == o.r
    {
      match reaper.pc
      case QueueLock =>
        if !locked && !fails {
          locked := true;
          reaper := reaper.(pc := HeadRead);
        }
      case HeadRead => reaper := reaper.(cur := head, pc := if head == NULL then QueueUnlock else HeadClear);
      case HeadClear =>
        head := NULL;
        reaper := reaper.(pc := TailClear);
      case TailClear =>
        tail := NULL;
        reaper := reaper.(pc := QueueUnlock);
      case QueueUnlock =>
        locked := false;
        if reaper.cur == NULL { reaper := reaper.(pc := CountLoad); }
        else { reaper := reaper.(pc := NodeRead, processed := 0); }
      case _ =>
    }

    /** One step of the loop over the nodes taken. */
    method Walk()
      requires Valid()
      modifies this`reaper, handles, nodes
      ensures var o := WalkStep(cfg, old(Shared()), old(reaper));
        Shared() == o.mem && reaper == o.r
    {
      assert ReaperInside(cfg, reaper);
      match reaper.pc
      case NodeRead =>
        if reaper.cur == NULL { reaper := reaper.(pc := Fault); }
        else {
          reaper := reaper.(pc := ReapMark, nxt := nodes[reaper.cur].next, thread := nodes[reaper.cur].thread);
        }
      case ReapMark =>
        if reaper.thread == NULL { reaper := reaper.(pc := Fault); }
        else {
          var prev := FetchOr(reaper.thread, false, true);
          reaper := reaper.(pc := if prev.reaped then NodeFree else HandleFree);
        }
      case HandleFree =>
        if reaper.thread == NULL { reaper := reaper.(pc := Fault); }
        else {
          handles[reaper.thread] := handles[reaper.thread].(freed := handles[reaper.thread].freed + 1);
          reaper := reaper.(pc := NodeFree);
        }
      case NodeFree =>
        if reaper.cur == NULL { reaper := reaper.(pc := Fault); }
        else {
          nodes[reaper.cur] := nodes[reaper.cur].(freed := nodes[reaper.cur].freed + 1);
          reaper := reaper.(pc := if reaper.nxt == NULL then CountSub else NodeRead, cur := reaper.nxt,
                            processed := reaper.processed + 1);
        }
      case _ =>
    }

    /** One step of the loop around them: look at the count, sleep on it, subtract from it. */
    method AwaitCount()
      requires Valid() && !Dequeuing(reaper)
      requires
        || reaper.pc.Off? || reaper.pc.CountLoad? || reaper.pc.CountWait? || reaper.pc.CountAsleep?
        || reaper.pc.CountSub?
      modifies this`count, this`dozing, this`reaper
      ensures var o := ReaperStep(cfg, old(Shared()), old(reaper), false);
        Shared() == o.mem && reaper == o.r
    {
      match reaper.pc
      case Off => if cloned { reaper := reaper.(pc := CountLoad); }
      case CountLoad => reaper := reaper.(pc := if count == 0 then CountWait else QueueLock);
      case CountWait =>
        if count == 0 {
          dozing := true;
          reaper := reaper.(pc := CountAsleep);
        } else {
          reaper := reaper.(pc := CountLoad);
        }
      case CountAsleep => if !dozing { reaper := reaper.(pc := CountLoad); }
      case CountSub =>
        count := count - reaper.processed;
        reaper := reaper.(pc := CountLoad, processed := 0);
    }

    /** One step of `reaper_main`. */
    method ReaperMain(fails: bool)
      requires Valid()
      modifies this`locked, this`head, this`tail, this`count, this`dozing, this`reaper, handles, nodes
      ensures Valid() && View() == Step(cfg, old(View()), Reap(fails))
    {
      ReaperRuns(cfg, Shared(), reaper, fails);
      if Dequeuing(reaper) {
        Dequeue(fails);
      } else if Walking(reaper) || reaper.pc.Fault? {
        Walk();
      } else {
        AwaitCount();
      }
    }

    /** One action of the schedule. */
    method Act(act: Action)
      requires Valid()
      modifies this, handles, nodes, agents
      ensures handles == old(handles) && nodes == old(nodes) && agents == old(agents)
      ensures Valid() && View() == Step(cfg, old(View()), act)
    {
      match act
      case Run(t, choice, fails) => if t < agents.Length { Advance(t, choice, fails); }
      case Reap(fails) => ReaperMain(fails);
      case Rouse(h, k) => if h < handles.Length { Wake(h, k); }
      case RouseReaper => dozing := false;
    }
  }

  /** Run the process under a schedule. */
  method RunProcess(cfg: Config, acts: seq<Action>) returns (p: Process)
    requires cfg.Valid()
    ensures p.Valid() && p.cfg == cfg && p.View() == Exec(cfg, acts)
    ensures Stuck(cfg, p.View()) ==> forall h :: 0 <= h < p.handles.Length ==>
              p.handles[h].freed == if p.handles[h].word.joined || p.handles[h].word.detached then 1 else 0
  {
    p := new Process(cfg);
    assert acts[..0] == [];
    for k := 0 to |acts|
      invariant p.Valid() && p.cfg == cfg && p.View() == Exec(cfg, acts[..k])
      invariant fresh(p) && fresh(p.handles) && fresh(p.nodes) && fresh(p.agents)
    {
      assert acts[..k + 1][..k] == acts[..k];
      p.Act(acts[k]);
    }
    assert acts[..|acts|] == acts;
    if Stuck(cfg, p.View()) { EndsClean(cfg, acts); }
  }
}
