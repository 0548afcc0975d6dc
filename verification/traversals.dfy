/** The hand-over-hand discipline seen from the list's positions: every operation that is
    walking the list occupies a window of indices, and the windows of operations that
    exclude each other never overtake. From this alone follow the order of the windows,
    the agreement of what each operation meets with the serial list it started from,
    and exactly-once traversal. */
module Traversals {
  import opened ListOps

  /** One thread as a walker: outside the list, inside it with a window of indices low to high,
      or just out of it. `ticket` is its place in head-lock order and `snap` is the list left by
      the operations before that place. `pending` says that its exchange has not been decided,
      and `seen` lists the data nodes it has locked. */
  datatype Walker =
    | Out
    | In(op: Op, ticket: nat, snap: seq<nat>, low: nat, high: nat, pending: bool, seen: seq<nat>)
    | Past(op: Op, ticket: nat, snap: seq<nat>, seen: seq<nat>)

  /** `order` is the list as it is, `serial` the list after running the operations of `log`
      (all that have locked the head, in that order) one at a time. */
  datatype Shadow = Shadow(order: seq<nat>, serial: seq<nat>, log: seq<Op>, walkers: seq<Walker>)

  datatype Event =
    | Quiet
    | Enter(t: nat, op: Op)
    | Grab(t: nat, node: nat)
    | Drop(t: nat)
    | Exchange(t: nat)
    | Leave(t: nat)

  /** Two operations inside the list exclude each other unless both only hold shared locks. */
  predicate Exclude(shared: bool, w: Walker, v: Walker) {
    w.In? && v.In? && !(shared && w.op.Search? && v.op.Search?)
  }

  predicate Inside(g: Shadow, t: nat) {
    t < |g.walkers| && g.walkers[t].In?
  }

  /** Nobody who excludes t has index i as the last lock of its window. */
  predicate Unfenced(shared: bool, g: Shadow, t: nat, w: Walker, i: nat) {
    forall u :: 0 <= u < |g.walkers| && u != t && Exclude(shared, w, g.walkers[u]) ==> g.walkers[u].low != i
  }

  function Newcomer(g: Shadow, op: Op): Walker {
    In(op, |g.log|, g.serial, 0, 0, op.Swap?, [])
  }

  predicate Guard(shared: bool, g: Shadow, e: Event) {
    match e
    case Quiet => true
    case Enter(t, op) =>
      && t < |g.walkers| && !Inside(g, t)
      && (op.Swap? ==> op.left + 2 < |g.order|)
      && Unfenced(shared, g, t, Newcomer(g, op), 0)
    case Grab(t, x) =>
      && Inside(g, t)
      && var w := g.walkers[t];
      && w.high + 1 < |g.order| && x == g.order[w.high + 1]
      && (if w.op.Search? then w.low == w.high else w.pending && w.high <= w.low + 1 && w.high <= w.op.left + 1)
      && Unfenced(shared, g, t, w, w.high + 1)
    case Drop(t) =>
      && Inside(g, t)
      && var w := g.walkers[t];
      && w.low < w.high && (w.op.Swap? ==> w.pending && w.low < w.op.left)
    case Exchange(t) =>
      && Inside(g, t)
      && var w := g.walkers[t];
      && w.op.Swap? && w.pending && w.low == w.op.left && w.high == w.low + 2
    case Leave(t) =>
      && Inside(g, t)
      && var w := g.walkers[t];
      && !w.pending && (w.op.Search? ==> w.low == w.high == |g.order| - 1)
  }

  function Put(g: Shadow, t: nat, w: Walker): Shadow
    requires t < |g.walkers|
  {
    g.(walkers := g.walkers[t := w])
  }

  /** What event e makes of the walker it belongs to. */
  function Moved(g: Shadow, w: Walker, e: Event): Walker {
    match e
    case Enter(_, op) => Newcomer(g, op)
    case Grab(_, x) => if w.In? then w.(high := w.high + 1, seen := w.seen + [x]) else w
    case Drop(_) => if w.In? then w.(low := w.low + 1) else w
    case Exchange(_) => if w.In? then w.(pending := false) else w
    case Leave(_) => if w.In? then Past(w.op, w.ticket, w.snap, w.seen) else w
    case Quiet => w
  }

  function Reordered(lens: seq<nat>, l: seq<nat>, w: Walker, e: Event): seq<nat> {
    if e.Exchange? && w.In? then Apply(lens, w.op, l) else l
  }

  function Advance(lens: seq<nat>, g: Shadow, e: Event): Shadow {
    if e.Quiet? || |g.walkers| <= e.t then g
    else
      var w := g.walkers[e.t];
      Shadow(Reordered(lens, g.order, w, e),
             if e.Enter? then Apply(lens, e.op, g.serial) else g.serial,
             if e.Enter? then g.log + [e.op] else g.log,
             g.walkers[e.t := Moved(g, w, e)])
  }

  // ----- the invariant

  /** What an operation inside, or just out of, the list says about itself. */
  ghost predicate Sound(lens: seq<nat>, l0: seq<nat>, order: seq<nat>, log: seq<Op>, w: Walker) {
    match w
    case Out => true
    case In(op, ticket, snap, low, high, pending, seen) =>
      && ticket < |log| && log[ticket] == op
      && |snap| == |order| && snap == Serial(lens, l0, log[..ticket])
      && low <= high < |order|
      && (op.Search? ==> !pending && high <= low + 1)
      && (op.Swap? ==> low <= op.left && op.left + 2 < |order| && high <= low + 2)
      && (op.Swap? && !pending ==> low == op.left && high == low + 2)
      && multiset(seen) == multiset(order[1..high + 1])
    case Past(op, ticket, snap, seen) =>
      && ticket < |log| && log[ticket] == op
      && |snap| == |order| && snap == Serial(lens, l0, log[..ticket])
      && 1 <= |order| && (op.Search? ==> multiset(seen) == multiset(order[1..]))
  }

  /** Operations that exclude each other are strictly apart, the earlier one ahead. */
  ghost predicate Apart(shared: bool, w: Walker, v: Walker) {
    Exclude(shared, w, v) ==>
      w.ticket != v.ticket && (w.ticket < v.ticket ==> v.high < w.low)
  }

  /** No undecided exchange with a ticket strictly between lo and hi reaches index i. */
  ghost predicate Clear(g: Shadow, lo: int, hi: int, i: int) {
    forall v :: 0 <= v < |g.walkers| && Undecided(g.walkers[v]) && lo < g.walkers[v].ticket < hi ==>
      !Targets(g.walkers[v], i)
  }

  predicate Undecided(w: Walker) {
    w.In? && w.op.Swap? && w.pending
  }

  predicate Targets(w: Walker, i: int)
    requires w.In? && w.op.Swap?
  {
    i == w.op.left + 1 || i == w.op.left + 2
  }

  /** From index `from` on, x and y are equal wherever no undecided exchange in between can act. */
  ghost predicate Agree(g: Shadow, x: seq<nat>, lo: int, from: nat, y: seq<nat>, hi: int) {
    && |x| == |y| == |g.order|
    && forall i: nat :: from <= i < |x| && Clear(g, lo, hi, i) ==> x[i] == y[i]
  }

  function After(lens: seq<nat>, w: Walker): seq<nat>
    requires w.In?
  {
    Apply(lens, w.op, w.snap)
  }

  /** What w must meet from the low end of its window on. */
  function Meets(lens: seq<nat>, w: Walker): seq<nat>
    requires w.In?
  {
    if w.pending then w.snap else After(lens, w)
  }

  ghost predicate OrderAgrees(lens: seq<nat>, g: Shadow) {
    && Agree(g, g.order, -1, 0, g.serial, |g.log|)
    && forall t :: 0 <= t < |g.walkers| && g.walkers[t].In? ==>
         Agree(g, g.order, -1, g.walkers[t].low, Meets(lens, g.walkers[t]), g.walkers[t].ticket)
  }

  ghost predicate PendingAgree(lens: seq<nat>, g: Shadow) {
    && (forall u :: 0 <= u < |g.walkers| && Undecided(g.walkers[u]) ==>
          Agree(g, After(lens, g.walkers[u]), g.walkers[u].ticket, g.walkers[u].low, g.serial, |g.log|))
    && (forall u, t :: 0 <= u < |g.walkers| && 0 <= t < |g.walkers| ==>
          PairAgrees(lens, g, g.walkers[u], g.walkers[t]))
  }

  /** What the undecided u will leave ahead of itself is what the later w starts from. */
  ghost predicate PairAgrees(lens: seq<nat>, g: Shadow, u: Walker, w: Walker) {
    Undecided(u) && w.In? && u.ticket < w.ticket ==>
      Agree(g, After(lens, u), u.ticket, u.low, w.snap, w.ticket)
  }

  ghost predicate AllSound(lens: seq<nat>, l0: seq<nat>, g: Shadow) {
    && |g.serial| == |g.order| == |l0|
    && g.serial == Serial(lens, l0, g.log)
    && forall t {:trigger Sound(lens, l0, g.order, g.log, g.walkers[t])} ::
         0 <= t < |g.walkers| ==> Sound(lens, l0, g.order, g.log, g.walkers[t])
  }

  ghost predicate AllApart(shared: bool, g: Shadow) {
    forall t, u {:trigger Apart(shared, g.walkers[t], g.walkers[u])} ::
      0 <= t < |g.walkers| && 0 <= u < |g.walkers| && t != u ==>
      Apart(shared, g.walkers[t], g.walkers[u])
  }

  ghost predicate Inv(lens: seq<nat>, shared: bool, l0: seq<nat>, g: Shadow) {
    && Arrangement(g.order)
    && AllSound(lens, l0, g)
    && AllApart(shared, g)
    && OrderAgrees(lens, g)
    && PendingAgree(lens, g)
  }

  // ----- consequences

  /** What an operation has locked is what the serial list before it has at those places. */
  lemma HeldAgrees(lens: seq<nat>, shared: bool, l0: seq<nat>, g: Shadow, t: nat, i: nat)
    requires Inv(lens, shared, l0, g) && Inside(g, t)
    requires g.walkers[t].low <= i <= g.walkers[t].high
    ensures i < |Meets(lens, g.walkers[t])| && g.order[i] == Meets(lens, g.walkers[t])[i]
  {
    var w := g.walkers[t];
    assert Sound(lens, l0, g.order, g.log, g.walkers[t]);
    forall v | 0 <= v < |g.walkers| && Undecided(g.walkers[v]) && -1 < g.walkers[v].ticket < w.ticket
      ensures !Targets(g.walkers[v], i)
    {
      assert Apart(shared, g.walkers[v], w);
      assert Sound(lens, l0, g.order, g.log, g.walkers[v]);
    }
    assert Clear(g, -1, w.ticket, i);
  }

  // ----- every event keeps the invariant

  /** Agreement survives when the undecided exchanges in between stay undecided. */
  lemma Carry(g: Shadow, g': Shadow, x: seq<nat>, lo: int, from: nat, y: seq<nat>, hi: int, from': nat, hi': int)
    requires |g'.walkers| == |g.walkers| && |g'.order| == |g.order| && from <= from'
    requires Agree(g, x, lo, from, y, hi)
    requires forall v :: 0 <= v < |g.walkers| && Undecided(g.walkers[v]) && lo < g.walkers[v].ticket < hi ==>
               && Undecided(g'.walkers[v]) && lo < g'.walkers[v].ticket < hi'
               && g'.walkers[v].op == g.walkers[v].op
    ensures Agree(g', x, lo, from', y, hi')
  {
    forall i | from' <= i < |x| && Clear(g', lo, hi', i)
      ensures i < |y| && x[i] == y[i]
    {
      forall v | 0 <= v < |g.walkers| && Undecided(g.walkers[v]) && lo < g.walkers[v].ticket < hi
        ensures !Targets(g.walkers[v], i)
      {
        assert !Targets(g'.walkers[v], i);
      }
      assert Clear(g, lo, hi, i);
    }
  }

  /** Moving a window, or leaving the list after the decision, disturbs no agreement. */
  ghost predicate LocalChange(g: Shadow, g': Shadow, t: nat) {
    && Inside(g, t) && |g'.walkers| == |g.walkers| && g' == Put(g, t, g'.walkers[t])
    && var w := g.walkers[t];
    && var w' := g'.walkers[t];
    && (w'.In? ==> w'.op == w.op && w'.ticket == w.ticket && w'.snap == w.snap
                   && w'.pending == w.pending && w.low <= w'.low)
    && (!w'.In? ==> !Undecided(w))
  }

  lemma LocalKeepsOrder(lens: seq<nat>, g: Shadow, g': Shadow, t: nat)
    requires t < |g'.walkers| && LocalChange(g, g', t) && OrderAgrees(lens, g)
    ensures OrderAgrees(lens, g')
  {
    Carry(g, g', g.order, -1, 0, g.serial, |g.log|, 0, |g.log|);
    forall u | 0 <= u < |g'.walkers| && g'.walkers[u].In?
      ensures Agree(g', g'.order, -1, g'.walkers[u].low, Meets(lens, g'.walkers[u]), g'.walkers[u].ticket)
    {
      var w := g.walkers[u];
      Carry(g, g', g.order, -1, w.low, Meets(lens, w), w.ticket, g'.walkers[u].low, w.ticket);
    }
  }

  lemma LocalKeepsPending(lens: seq<nat>, g: Shadow, g': Shadow, t: nat)
    requires t < |g'.walkers| && LocalChange(g, g', t) && PendingAgree(lens, g)
    ensures PendingAgree(lens, g')
  {
    forall u | 0 <= u < |g'.walkers| && Undecided(g'.walkers[u])
      ensures Agree(g', After(lens, g'.walkers[u]), g'.walkers[u].ticket, g'.walkers[u].low, g'.serial, |g'.log|)
    {
      var w := g.walkers[u];
      Carry(g, g', After(lens, w), w.ticket, w.low, g.serial, |g.log|, g'.walkers[u].low, |g.log|);
    }
    forall u, v | 0 <= u < |g'.walkers| && 0 <= v < |g'.walkers|
      ensures PairAgrees(lens, g', g'.walkers[u], g'.walkers[v])
    {
      var w, x := g.walkers[u], g.walkers[v];
      if Undecided(g'.walkers[u]) && g'.walkers[v].In? && w.ticket < x.ticket {
        assert PairAgrees(lens, g, w, x);
        Carry(g, g', After(lens, w), w.ticket, w.low, x.snap, x.ticket, g'.walkers[u].low, x.ticket);
      }
    }
  }

  lemma GrabKeepsApart(shared: bool, lens: seq<nat>, g: Shadow, t: nat, x: nat)
    requires AllApart(shared, g) && Guard(shared, g, Grab(t, x))
    ensures AllApart(shared, Advance(lens, g, Grab(t, x)))
  {
    var g' := Advance(lens, g, Grab(t, x));
    forall u, v | 0 <= u < |g'.walkers| && 0 <= v < |g'.walkers| && u != v
      ensures Apart(shared, g'.walkers[u], g'.walkers[v])
    {
      assert Apart(shared, g.walkers[u], g.walkers[v]);
      assert Exclude(shared, g.walkers[u], g.walkers[v]) == Exclude(shared, g'.walkers[u], g'.walkers[v]);
      assert Exclude(shared, g.walkers[u], g.walkers[v]) == Exclude(shared, g.walkers[v], g.walkers[u]);
    }
  }

  lemma GrabKeepsSound(lens: seq<nat>, shared: bool, l0: seq<nat>, g: Shadow, t: nat, x: nat)
    requires AllSound(lens, l0, g) && Guard(shared, g, Grab(t, x))
    ensures AllSound(lens, l0, Advance(lens, g, Grab(t, x)))
  {
    var g' := Advance(lens, g, Grab(t, x));
    var w := g.walkers[t];
    assert Sound(lens, l0, g.order, g.log, w);
    assert g.order[1..w.high + 2] == g.order[1..w.high + 1] + [x];
    forall u | 0 <= u < |g'.walkers| && u != t
      ensures Sound(lens, l0, g'.order, g'.log, g'.walkers[u])
    {
      assert Sound(lens, l0, g.order, g.log, g.walkers[u]);
    }
  }

  lemma GrabKeeps(lens: seq<nat>, shared: bool, l0: seq<nat>, g: Shadow, t: nat, x: nat)
    requires Inv(lens, shared, l0, g) && Guard(shared, g, Grab(t, x))
    ensures Inv(lens, shared, l0, Advance(lens, g, Grab(t, x)))
  {
    var g' := Advance(lens, g, Grab(t, x));
    LocalKeepsOrder(lens, g, g', t);
    LocalKeepsPending(lens, g, g', t);
    GrabKeepsApart(shared, lens, g, t, x);
    GrabKeepsSound(lens, shared, l0, g, t, x);
  }

  lemma DropKeepsSound(lens: seq<nat>, shared: bool, l0: seq<nat>, g: Shadow, t: nat)
    requires AllSound(lens, l0, g) && Guard(shared, g, Drop(t))
    ensures AllSound(lens, l0, Advance(lens, g, Drop(t)))
  {
    var g' := Advance(lens, g, Drop(t));
    assert Sound(lens, l0, g.order, g.log, g.walkers[t]);
    forall u | 0 <= u < |g'.walkers| && u != t
      ensures Sound(lens, l0, g'.order, g'.log, g'.walkers[u])
    {
      assert Sound(lens, l0, g.order, g.log, g.walkers[u]);
    }
  }

  lemma DropKeepsApart(lens: seq<nat>, shared: bool, g: Shadow, t: nat)
    requires AllApart(shared, g) && Guard(shared, g, Drop(t))
    ensures AllApart(shared, Advance(lens, g, Drop(t)))
  {
    var g' := Advance(lens, g, Drop(t));
    forall u, v | 0 <= u < |g'.walkers| && 0 <= v < |g'.walkers| && u != v
      ensures Apart(shared, g'.walkers[u], g'.walkers[v])
    {
      assert Apart(shared, g.walkers[u], g.walkers[v]);
    }
  }

  lemma DropKeeps(lens: seq<nat>, shared: bool, l0: seq<nat>, g: Shadow, t: nat)
    requires Inv(lens, shared, l0, g) && Guard(shared, g, Drop(t))
    ensures Inv(lens, shared, l0, Advance(lens, g, Drop(t)))
  {
    var g' := Advance(lens, g, Drop(t));
    LocalKeepsOrder(lens, g, g', t);
    LocalKeepsPending(lens, g, g', t);
    DropKeepsSound(lens, shared, l0, g, t);
    DropKeepsApart(lens, shared, g, t);
  }

  lemma LeaveKeepsSound(lens: seq<nat>, shared: bool, l0: seq<nat>, g: Shadow, t: nat)
    requires AllSound(lens, l0, g) && Guard(shared, g, Leave(t))
    ensures AllSound(lens, l0, Advance(lens, g, Leave(t)))
  {
    var g' := Advance(lens, g, Leave(t));
    assert Sound(lens, l0, g.order, g.log, g.walkers[t]);
    assert g.order[1..|g.order|] == g.order[1..];
    forall u | 0 <= u < |g'.walkers| && u != t
      ensures Sound(lens, l0, g'.order, g'.log, g'.walkers[u])
    {
      assert Sound(lens, l0, g.order, g.log, g.walkers[u]);
    }
  }

  lemma LeaveKeepsApart(lens: seq<nat>, shared: bool, g: Shadow, t: nat)
    requires AllApart(shared, g) && Guard(shared, g, Leave(t))
    ensures AllApart(shared, Advance(lens, g, Leave(t)))
  {
    var g' := Advance(lens, g, Leave(t));
    forall u, v | 0 <= u < |g'.walkers| && 0 <= v < |g'.walkers| && u != v
      ensures Apart(shared, g'.walkers[u], g'.walkers[v])
    {
      assert Apart(shared, g.walkers[u], g.walkers[v]);
    }
  }

  lemma LeaveKeeps(lens: seq<nat>, shared: bool, l0: seq<nat>, g: Shadow, t: nat)
    requires Inv(lens, shared, l0, g) && Guard(shared, g, Leave(t))
    ensures Inv(lens, shared, l0, Advance(lens, g, Leave(t)))
  {
    var g' := Advance(lens, g, Leave(t));
    LocalKeepsOrder(lens, g, g', t);
    LocalKeepsPending(lens, g, g', t);
    LeaveKeepsSound(lens, shared, l0, g, t);
    LeaveKeepsApart(lens, shared, g, t);
  }

  // Enter

  /** The newcomer changes the serial list only where its own exchange can act. */
  lemma SerialCarry(lens: seq<nat>, g: Shadow, t: nat, op: Op, x: seq<nat>, lo: int, from: nat)
    requires t < |g.walkers| && !Inside(g, t) && (op.Swap? ==> op.left + 2 < |g.order|)
    requires Agree(g, x, lo, from, g.serial, |g.log|) && lo < |g.log|
    ensures var g' := Advance(lens, g, Enter(t, op)); Agree(g', x, lo, from, g'.serial, |g'.log|)
  {
    var g' := Advance(lens, g, Enter(t, op));
    Carry(g, g', x, lo, from, g.serial, |g.log|, from, |g'.log|);
    forall i: nat | from <= i < |x| && Clear(g', lo, |g'.log|, i)
      ensures i < |g'.serial| && x[i] == g'.serial[i]
    {
      assert Undecided(g'.walkers[t]) ==> !Targets(g'.walkers[t], i);
    }
  }

  lemma EnterKeepsSound(lens: seq<nat>, shared: bool, l0: seq<nat>, g: Shadow, t: nat, op: Op)
    requires Arrangement(g.order) && AllSound(lens, l0, g) && Guard(shared, g, Enter(t, op))
    ensures AllSound(lens, l0, Advance(lens, g, Enter(t, op)))
  {
    var g' := Advance(lens, g, Enter(t, op));
    assert g'.log[..|g.log|] == g.log;
    forall u | 0 <= u < |g.walkers|
      ensures Sound(lens, l0, g'.order, g'.log, g'.walkers[u])
    {
      if u == t {
        assert g.order[1..1] == [];
      } else if !g.walkers[u].Out? {
        assert Sound(lens, l0, g.order, g.log, g.walkers[u]);
        assert g'.log[..g.walkers[u].ticket] == g.log[..g.walkers[u].ticket];
      }
    }
  }

  lemma EnterKeepsAgree(lens: seq<nat>, l0: seq<nat>, g: Shadow, t: nat, op: Op)
    requires AllSound(lens, l0, g) && OrderAgrees(lens, g) && PendingAgree(lens, g)
    requires t < |g.walkers| && !Inside(g, t) && (op.Swap? ==> op.left + 2 < |g.order|)
    ensures OrderAgrees(lens, Advance(lens, g, Enter(t, op)))
    ensures PendingAgree(lens, Advance(lens, g, Enter(t, op)))
  {
    var g' := Advance(lens, g, Enter(t, op));
    SerialCarry(lens, g, t, op, g.order, -1, 0);
    forall u | 0 <= u < |g'.walkers| && g'.walkers[u].In?
      ensures Agree(g', g'.order, -1, g'.walkers[u].low, Meets(lens, g'.walkers[u]), g'.walkers[u].ticket)
    {
      var w := g'.walkers[u];
      Carry(g, g', g.order, -1, w.low, Meets(lens, w), w.ticket, w.low, w.ticket);
    }
    forall u | 0 <= u < |g'.walkers| && Undecided(g'.walkers[u])
      ensures Agree(g', After(lens, g'.walkers[u]), g'.walkers[u].ticket, g'.walkers[u].low, g'.serial, |g'.log|)
    {
      var w := g'.walkers[u];
      if u != t {
        assert Sound(lens, l0, g.order, g.log, w);
        SerialCarry(lens, g, t, op, After(lens, w), w.ticket, w.low);
      }
    }
    forall u, v | 0 <= u < |g'.walkers| && 0 <= v < |g'.walkers|
      ensures PairAgrees(lens, g', g'.walkers[u], g'.walkers[v])
    {
      var w, x := g'.walkers[u], g'.walkers[v];
      if Undecided(w) && x.In? && w.ticket < x.ticket {
        assert Sound(lens, l0, g.order, g.log, g.walkers[v]);
        assert u != t;
        assert PairAgrees(lens, g, g.walkers[u], g.walkers[v]);
        Carry(g, g', After(lens, w), w.ticket, w.low, x.snap, x.ticket, w.low, x.ticket);
      }
    }
  }

  lemma EnterKeeps(lens: seq<nat>, shared: bool, l0: seq<nat>, g: Shadow, t: nat, op: Op)
    requires Inv(lens, shared, l0, g) && Guard(shared, g, Enter(t, op))
    ensures Inv(lens, shared, l0, Advance(lens, g, Enter(t, op)))
  {
    var g' := Advance(lens, g, Enter(t, op));
    EnterKeepsSound(lens, shared, l0, g, t, op);
    EnterKeepsAgree(lens, l0, g, t, op);
    forall u, v | 0 <= u < |g'.walkers| && 0 <= v < |g'.walkers| && u != v
      ensures Apart(shared, g'.walkers[u], g'.walkers[v])
    {
      assert Apart(shared, g.walkers[u], g.walkers[v]);
      assert Sound(lens, l0, g.order, g.log, g.walkers[u]) && Sound(lens, l0, g.order, g.log, g.walkers[v]);
    }
  }

  // Exchange

  /** The exchange decides on, and leaves behind, exactly what it does in the serial list. */
  lemma ExchangeIsSerial(lens: seq<nat>, shared: bool, l0: seq<nat>, g: Shadow, t: nat)
    requires Inv(lens, shared, l0, g) && Guard(shared, g, Exchange(t))
    ensures var w := g.walkers[t];
      && |w.snap| == |g.order| && w.op.left + 2 < |g.order|
      && g.order[w.op.left + 1] == w.snap[w.op.left + 1]
      && g.order[w.op.left + 2] == w.snap[w.op.left + 2]
  {
    var w := g.walkers[t];
    assert Sound(lens, l0, g.order, g.log, g.walkers[t]);
    HeldAgrees(lens, shared, l0, g, t, w.op.left + 1);
    HeldAgrees(lens, shared, l0, g, t, w.op.left + 2);
  }

  /** A list that agreed with the order behind t's decision agrees with it after the decision. */
  lemma DecidedCarry(lens: seq<nat>, g: Shadow, t: nat, from: nat, y: seq<nat>, hi: int)
    requires Inside(g, t) && Undecided(g.walkers[t])
    requires var w := g.walkers[t];
      && |w.snap| == |g.order| && w.op.left + 2 < |g.order| && w.low <= w.op.left
      && g.order[w.op.left + 1] == w.snap[w.op.left + 1]
      && g.order[w.op.left + 2] == w.snap[w.op.left + 2]
    requires Agree(g, g.order, -1, from, y, hi)
    requires g.walkers[t].ticket < hi ==>
               Agree(g, After(lens, g.walkers[t]), g.walkers[t].ticket, g.walkers[t].low, y, hi)
    requires hi <= g.walkers[t].ticket ==> g.walkers[t].op.left + 2 < from
    ensures var g' := Advance(lens, g, Exchange(t)); Agree(g', g'.order, -1, from, y, hi)
  {
    var g' := Advance(lens, g, Exchange(t));
    var w := g.walkers[t];
    forall i: nat | from <= i < |g.order| && Clear(g', -1, hi, i)
      ensures i < |y| && g'.order[i] == y[i]
    {
      if Targets(w, i) {
        forall v | 0 <= v < |g.walkers| && Undecided(g.walkers[v]) && w.ticket < g.walkers[v].ticket < hi
          ensures !Targets(g.walkers[v], i)
        {
          assert !Targets(g'.walkers[v], i);
        }
        assert Clear(g, w.ticket, hi, i);
        assert g'.order[i] == After(lens, w)[i];
      } else {
        forall v | 0 <= v < |g.walkers| && Undecided(g.walkers[v]) && -1 < g.walkers[v].ticket < hi
          ensures !Targets(g.walkers[v], i)
        {
          assert v != t ==> !Targets(g'.walkers[v], i);
        }
        assert Clear(g, -1, hi, i);
      }
    }
  }

  /** The one that decides meets what it leaves behind. */
  lemma DecidedMeets(lens: seq<nat>, g: Shadow, t: nat)
    requires Inside(g, t) && Undecided(g.walkers[t])
    requires var w := g.walkers[t];
      && |w.snap| == |g.order| && w.op.left + 2 < |g.order| && w.low <= w.op.left
      && g.order[w.op.left + 1] == w.snap[w.op.left + 1]
      && g.order[w.op.left + 2] == w.snap[w.op.left + 2]
    requires Agree(g, g.order, -1, g.walkers[t].low, g.walkers[t].snap, g.walkers[t].ticket)
    ensures var g' := Advance(lens, g, Exchange(t));
      Agree(g', g'.order, -1, g.walkers[t].low, After(lens, g.walkers[t]), g.walkers[t].ticket)
  {
    var g' := Advance(lens, g, Exchange(t));
    var w := g.walkers[t];
    forall i: nat | w.low <= i < |g.order| && Clear(g', -1, w.ticket, i)
      ensures g'.order[i] == After(lens, w)[i]
    {
      if !Targets(w, i) {
        forall v | 0 <= v < |g.walkers| && Undecided(g.walkers[v]) && -1 < g.walkers[v].ticket < w.ticket
          ensures !Targets(g.walkers[v], i)
        {
          assert v != t ==> !Targets(g'.walkers[v], i);
        }
        assert Clear(g, -1, w.ticket, i);
      }
    }
  }

  lemma ExchangeMeets(lens: seq<nat>, shared: bool, l0: seq<nat>, g: Shadow, t: nat, u: nat)
    requires Inv(lens, shared, l0, g) && Guard(shared, g, Exchange(t)) && Inside(g, u) && u != t
    ensures var g' := Advance(lens, g, Exchange(t)); var x := g.walkers[u];
      Agree(g', g'.order, -1, x.low, Meets(lens, x), x.ticket)
  {
    var w, x := g.walkers[t], g.walkers[u];
    assert Sound(lens, l0, g.order, g.log, w);
    assert Apart(shared, w, x) && Apart(shared, x, w);
    ExchangeIsSerial(lens, shared, l0, g, t);
    if w.ticket < x.ticket { PendingMeets(lens, shared, l0, g, t, u); }
    DecidedCarry(lens, g, t, x.low, Meets(lens, x), x.ticket);
  }

  lemma ExchangeKeepsOrder(lens: seq<nat>, shared: bool, l0: seq<nat>, g: Shadow, t: nat)
    requires Inv(lens, shared, l0, g) && Guard(shared, g, Exchange(t))
    ensures OrderAgrees(lens, Advance(lens, g, Exchange(t)))
  {
    var g' := Advance(lens, g, Exchange(t));
    assert Sound(lens, l0, g.order, g.log, g.walkers[t]);
    ExchangeIsSerial(lens, shared, l0, g, t);
    DecidedCarry(lens, g, t, 0, g.serial, |g.log|);
    forall u | 0 <= u < |g'.walkers| && g'.walkers[u].In?
      ensures Agree(g', g'.order, -1, g'.walkers[u].low, Meets(lens, g'.walkers[u]), g'.walkers[u].ticket)
    {
      if u == t { DecidedMeets(lens, g, t); } else { ExchangeMeets(lens, shared, l0, g, t, u); }
    }
  }

  /** A decided later swapper lies behind, so its own exchange does not blur what t leaves ahead. */
  lemma PendingMeets(lens: seq<nat>, shared: bool, l0: seq<nat>, g: Shadow, t: nat, u: nat)
    requires Inv(lens, shared, l0, g) && Inside(g, t) && Undecided(g.walkers[t]) && Inside(g, u)
    requires g.walkers[t].ticket < g.walkers[u].ticket
    ensures Agree(g, After(lens, g.walkers[t]), g.walkers[t].ticket, g.walkers[t].low,
                  Meets(lens, g.walkers[u]), g.walkers[u].ticket)
  {
    var w, x := g.walkers[t], g.walkers[u];
    assert PairAgrees(lens, g, w, x);
    assert Sound(lens, l0, g.order, g.log, x);
    assert Apart(shared, w, x);
  }

  lemma ExchangeKeepsPending(lens: seq<nat>, shared: bool, l0: seq<nat>, g: Shadow, t: nat)
    requires Inv(lens, shared, l0, g) && Guard(shared, g, Exchange(t))
    ensures PendingAgree(lens, Advance(lens, g, Exchange(t)))
  {
    var g' := Advance(lens, g, Exchange(t));
    var w := g.walkers[t];
    forall u, y: seq<nat>, hi: int | 0 <= u < |g'.walkers| && Undecided(g'.walkers[u])
      && Agree(g, After(lens, g.walkers[u]), g.walkers[u].ticket, g.walkers[u].low, y, hi)
      ensures Agree(g', After(lens, g'.walkers[u]), g'.walkers[u].ticket, g'.walkers[u].low, y, hi)
    {
      AheadCarry(lens, shared, l0, g, t, u, y, hi);
    }
    forall u, v | 0 <= u < |g'.walkers| && 0 <= v < |g'.walkers|
      ensures PairAgrees(lens, g', g'.walkers[u], g'.walkers[v])
    {
      assert PairAgrees(lens, g, g.walkers[u], g.walkers[v]);
    }
  }

  /** t lies behind every undecided u that is earlier, so deciding t leaves u's promise alone. */
  lemma AheadCarry(lens: seq<nat>, shared: bool, l0: seq<nat>, g: Shadow, t: nat, u: nat, y: seq<nat>, hi: int)
    requires Inv(lens, shared, l0, g) && Guard(shared, g, Exchange(t))
    requires Inside(g, u) && u != t && Undecided(g.walkers[u])
    requires Agree(g, After(lens, g.walkers[u]), g.walkers[u].ticket, g.walkers[u].low, y, hi)
    ensures Agree(Advance(lens, g, Exchange(t)), After(lens, g.walkers[u]),
                  g.walkers[u].ticket, g.walkers[u].low, y, hi)
  {
    var g' := Advance(lens, g, Exchange(t));
    var w, x := g.walkers[t], g.walkers[u];
    assert Apart(shared, x, w);
    forall i: nat | x.low <= i < |g.order| && Clear(g', x.ticket, hi, i)
      ensures i < |y| && After(lens, x)[i] == y[i]
    {
      forall v | 0 <= v < |g.walkers| && Undecided(g.walkers[v]) && x.ticket < g.walkers[v].ticket < hi
        ensures !Targets(g.walkers[v], i)
      {
        assert v != t ==> !Targets(g'.walkers[v], i);
      }
      assert Clear(g, x.ticket, hi, i);
    }
  }

  lemma ApplySlice(lens: seq<nat>, op: Op, l: seq<nat>, hi: nat)
    requires op.Swap? && op.left + 2 < |l| && 1 <= hi <= |l|
    requires hi <= op.left + 1 || op.left + 2 < hi
    ensures multiset(Apply(lens, op, l)[1..hi]) == multiset(l[1..hi])
  {
    SwapAtSlice(l, op.left + 1, 1, hi);
  }

  lemma ExchangeKeepsOthers(lens: seq<nat>, l0: seq<nat>, order: seq<nat>, log: seq<Op>, op: Op, x: Walker)
    requires op.Swap? && op.left + 2 < |order| && Sound(lens, l0, order, log, x)
    requires x.In? ==> x.high <= op.left || op.left + 2 <= x.high
    ensures Sound(lens, l0, Apply(lens, op, order), log, x)
  {
    var order' := Apply(lens, op, order);
    if x.In? {
      ApplySlice(lens, op, order, x.high + 1);
    } else if x.Past? {
      ApplySlice(lens, op, order, |order|);
      assert order[1..|order|] == order[1..] && order'[1..|order|] == order'[1..];
    }
  }

  lemma ExchangeSpares(lens: seq<nat>, shared: bool, l0: seq<nat>, g: Shadow, t: nat, u: nat)
    requires AllSound(lens, l0, g) && AllApart(shared, g) && Guard(shared, g, Exchange(t)) && Inside(g, u)
    ensures var w, x := g.walkers[t], g.walkers[u];
      w.op.left + 2 < |g.order| && (x.high <= w.op.left || w.op.left + 2 <= x.high)
  {
    var w, x := g.walkers[t], g.walkers[u];
    assert Sound(lens, l0, g.order, g.log, w) && Sound(lens, l0, g.order, g.log, x);
    assert u != t ==> Apart(shared, w, x) && Apart(shared, x, w);
  }

  lemma ExchangeKeepsSound(lens: seq<nat>, shared: bool, l0: seq<nat>, g: Shadow, t: nat)
    requires AllSound(lens, l0, g) && AllApart(shared, g) && Guard(shared, g, Exchange(t))
    ensures AllSound(lens, l0, Advance(lens, g, Exchange(t)))
  {
    var g' := Advance(lens, g, Exchange(t));
    var w := g.walkers[t];
    ExchangeSpares(lens, shared, l0, g, t, t);
    forall u | 0 <= u < |g'.walkers|
      ensures Sound(lens, l0, g'.order, g.log, g.walkers[u])
    {
      if Inside(g, u) { ExchangeSpares(lens, shared, l0, g, t, u); }
      ExchangeKeepsOthers(lens, l0, g.order, g.log, w.op, g.walkers[u]);
    }
    assert Sound(lens, l0, g'.order, g.log, w);
    assert Sound(lens, l0, g'.order, g.log, w.(pending := false));
    forall u | 0 <= u < |g'.walkers|
      ensures Sound(lens, l0, g'.order, g'.log, g'.walkers[u])
    {
      assert u != t ==> g'.walkers[u] == g.walkers[u];
    }
  }

  lemma ExchangeKeepsApart(lens: seq<nat>, shared: bool, g: Shadow, t: nat)
    requires AllApart(shared, g) && Guard(shared, g, Exchange(t))
    ensures AllApart(shared, Advance(lens, g, Exchange(t)))
  {
    var g' := Advance(lens, g, Exchange(t));
    forall u, v | 0 <= u < |g'.walkers| && 0 <= v < |g'.walkers| && u != v
      ensures Apart(shared, g'.walkers[u], g'.walkers[v])
    {
      assert Apart(shared, g.walkers[u], g.walkers[v]);
    }
  }

  lemma ExchangeKeeps(lens: seq<nat>, shared: bool, l0: seq<nat>, g: Shadow, t: nat)
    requires Inv(lens, shared, l0, g) && Guard(shared, g, Exchange(t))
    ensures Inv(lens, shared, l0, Advance(lens, g, Exchange(t)))
  {
    ExchangeSpares(lens, shared, l0, g, t, t);
    ExchangeKeepsOrder(lens, shared, l0, g, t);
    ExchangeKeepsPending(lens, shared, l0, g, t);
    ExchangeKeepsSound(lens, shared, l0, g, t);
    ExchangeKeepsApart(lens, shared, g, t);
    SwapAtArrangement(g.order, g.walkers[t].op.left + 1);
  }

  /** Every event keeps the invariant. */
  lemma EventKeeps(lens: seq<nat>, shared: bool, l0: seq<nat>, g: Shadow, e: Event)
    requires Inv(lens, shared, l0, g) && Guard(shared, g, e)
    ensures Inv(lens, shared, l0, Advance(lens, g, e))
  {
    match e
    case Quiet =>
    case Enter(t, op) => EnterKeeps(lens, shared, l0, g, t, op);
    case Grab(t, x) => GrabKeeps(lens, shared, l0, g, t, x);
    case Drop(t) => DropKeeps(lens, shared, l0, g, t);
    case Exchange(t) => ExchangeKeeps(lens, shared, l0, g, t);
    case Leave(t) => LeaveKeeps(lens, shared, l0, g, t);
  }
}
