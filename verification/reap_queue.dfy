/** The queue of 1.6/src/queue.h in the heap: linked nodes, appended one by one and taken all at once,
    each method run with the queue lock held or by the reaper on the list it has taken. */
module ReapQueue {
  import opened Lifecycle

  /** The fields of a `mythread_t` that the reaper touches; `freed` counts the calls of free. */
  class Thread {
    var word: Word
    var freed: nat

    constructor (word: Word)
      ensures this.word == word && freed == 0
    {
      this.word := word;
      freed := 0;
    }
  }

  /** A `reap_node_t`; `freed` counts the calls of free. */
  class ReapNode {
    var thread: Thread
    var next: ReapNode?
    var freed: nat

    constructor (thread: Thread)
      ensures this.thread == thread && next == null && freed == 0
    {
      this.thread := thread;
      next := null;
      freed := 0;
    }
  }

  /** Following `next` from `list` one meets exactly `nodes`, each once. */
  ghost predicate Spine(list: ReapNode?, nodes: seq<ReapNode>)
    reads nodes
  {
    && list == (if nodes == [] then null else nodes[0])
    && (forall i, j :: 0 <= i < j < |nodes| ==> nodes[i] != nodes[j])
    && forall i :: 0 <= i < |nodes| ==> nodes[i].next == if i + 1 < |nodes| then nodes[i + 1] else null
  }

  ghost function Threads(nodes: seq<ReapNode>): (ts: seq<Thread>)
    reads nodes
    ensures |ts| == |nodes|
  {
    seq(|nodes|, i requires 0 <= i < |nodes| reads nodes => nodes[i].thread)
  }

  /** The word is marked, and the thread freed once more unless the mark was there. */
  predicate Reaped(word: Word, freed: nat, was: Word, freedBefore: nat) {
    word == was.(reaped := true) && freed == freedBefore + if was.reaped then 0 else 1
  }

  /** The fetch_or of MT_REAPED on the thread in node n, its free unless the mark was there, and the free of n. */
  method ReapAndFree(n: ReapNode)
    modifies n.thread, n`freed
    ensures n.freed == old(n.freed) + 1
    ensures Reaped(n.thread.word, n.thread.freed, old(n.thread.word), old(n.thread.freed))
  {
    var t := n.thread;
    var prev := t.word;
    t.word := prev.(reaped := true);
    if !prev.reaped { t.freed := t.freed + 1; }
    n.freed := n.freed + 1;
  }

  class Queue {
    var head: ReapNode?
    var tail: ReapNode?
    var count: int
    ghost var nodes: seq<ReapNode>

    ghost predicate Valid()
      reads this, nodes
    {
      Spine(head, nodes) && tail == if nodes == [] then null else nodes[|nodes| - 1]
    }

    ghost function Contents(): seq<Thread>
      reads this, nodes
    {
      Threads(nodes)
    }

    constructor ()
      ensures Valid() && Contents() == [] && count == 0
    {
      head, tail, count, nodes := null, null, 0, [];
    }

    /** `reap_enqueue`: of the nodes there already, only the last one of this queue is written; the
        reaper is to be woken if the count was 0. */
    method Enqueue(t: Thread) returns (wake: bool)
      requires Valid()
      modifies this, if nodes == [] then {} else {nodes[|nodes| - 1]}
      ensures Valid() && Contents() == old(Contents()) + [t]
      ensures |nodes| == |old(nodes)| + 1 && nodes[..|old(nodes)|] == old(nodes) && fresh(nodes[|old(nodes)|])
      ensures count == old(count) + 1 && wake == (old(count) == 0)
    {
      var node := new ReapNode(t);
      if tail == null {
        head := node;
      } else {
        tail.next := node;
      }
      tail := node;
      nodes := nodes + [node];
      wake := count == 0;
      count := count + 1;
    }

    /** `reap_dequeue`: the whole list changes hands. */
    method Dequeue() returns (list: ReapNode?, ghost taken: seq<ReapNode>)
      requires Valid()
      modifies this`head, this`tail, this`nodes
      ensures Valid() && Contents() == [] && taken == old(nodes) && Spine(list, taken)
    {
      list := head;
      taken := nodes;
      if list != null {
        head := null;
        tail := null;
      }
      nodes := [];
    }

    /** The loop over the nodes taken: every thread in them is marked, and freed unless it was marked, and
        every node is freed, once. */
    method Walk(list: ReapNode?, ghost taken: seq<ReapNode>) returns (processed: nat)
      requires Spine(list, taken)
      modifies Threads(taken), taken`freed
      ensures processed == |taken|
      ensures forall k :: 0 <= k < |taken| ==> taken[k].freed == old(taken[k].freed) + 1
      ensures forall t :: t in old(Threads(taken)) ==> Reaped(t.word, t.freed, old(t.word), old(t.freed))
    {
      processed := 0;
      var current := list;
      ghost var ts, met := Threads(taken), {};
      while current != null
        invariant Spine(list, taken) && Threads(taken) == ts
        invariant processed <= |taken| && current == if processed < |taken| then taken[processed] else null
        invariant forall k :: 0 <= k < |taken| ==>
                    taken[k].freed == old(taken[k].freed) + if k < processed then 1 else 0
        invariant forall k :: 0 <= k < processed ==> ts[k] in met
        invariant forall t: Thread :: t in ts && t in met ==> Reaped(t.word, t.freed, old(t.word), old(t.freed))
        invariant forall t: Thread :: t in ts && t !in met ==> t.word == old(t.word) && t.freed == old(t.freed)
        decreases |taken| - processed
      {
        var next := current.next;
        assert taken[processed].next == if processed + 1 < |taken| then taken[processed + 1] else null;
        assert current.thread == ts[processed];
        met := met + {current.thread};
        ReapAndFree(current);
        processed := processed + 1;
        current := next;
      }
    }

    /** One round of `reaper_main` with nobody else at the queue: every thread in it is marked and freed,
        unless it was marked before, and the count goes back by as many as there were. */
    method Drain() returns (more: bool)
      requires Valid()
      modifies this`head, this`tail, this`nodes, this`count, Threads(nodes), nodes`freed
      ensures Valid() && Contents() == []
      ensures forall k :: 0 <= k < |old(nodes)| ==> old(nodes)[k].freed == old(nodes[k].freed) + 1
      ensures count == old(count) - |old(nodes)| && more == (|old(nodes)| != 0 && count > 0)
      ensures forall t :: t in old(Contents()) ==> Reaped(t.word, t.freed, old(t.word), old(t.freed))
    {
      var list, taken := Dequeue();
      if list == null { return false; }
      var processed := Walk(list, taken);
      count := count - processed;
      more := count > 0;
    }
  }

  /** Handing over any threads, none of them marked yet, and letting the reaper run once frees every one
      of them once, in whatever order and however often it comes. */
  method HandOverAll(q: Queue, ts: seq<Thread>)
    requires q.Valid() && q.Contents() == [] && q.count == 0
    requires forall t :: t in ts ==> !t.word.reaped
    modifies q, ts
    ensures q.Valid() && q.Contents() == [] && q.count == 0
    ensures forall t :: t in ts ==> t.word == old(t.word).(reaped := true) && t.freed == old(t.freed) + 1
  {
    for i := 0 to |ts|
      invariant q.Valid() && q.Contents() == ts[..i] && q.count == i
      invariant fresh(q.nodes)
      invariant forall t :: t in ts ==> t.word == old(t.word) && t.freed == old(t.freed)
    {
      var wake := q.Enqueue(ts[i]);
    }
    assert ts[..|ts|] == ts;
    var more := q.Drain();
  }
}
