/** What one read event does with the requests: none is lost, duplicated or reordered. */
module Conservation {
  import opened Model

  function Requests(popped: seq<(Request, Reply)>): seq<Request> {
    if popped == [] then [] else Requests(popped[..|popped| - 1]) + [popped[|popped| - 1].0]
  }

  datatype Fate = Pending | Dispatched | Dropped

  function FateOf(reply: Reply): Fate {
    match reply
    case NotYet => Pending
    case Answered(_) => Dispatched
    case Failed(_, _) => Dropped
  }

  /** The requests that met a given fate, in the order they were popped. */
  function WithFate(popped: seq<(Request, Reply)>, fate: Fate): seq<Request> {
    if popped == [] then []
    else
      var front, last := popped[..|popped| - 1], popped[|popped| - 1];
      WithFate(front, fate) + (if FateOf(last.1) == fate then [last.0] else [])
  }

  predicate Unreadable(reply: Reply) { reply.Failed? && !(reply.codeReadable && reply.messageReadable) }

  /** Relates a drain under way to the state it started from. */
  ghost predicate Accounted(v: View, script: seq<Reply>, d: Drain) {
    var seen := Requests(d.popped) + d.v.queue;
    && v.queue <= seen
    && |seen| - |v.queue| == d.v.nRead - v.nRead
    && d.pending == WithFate(d.popped, Pending)
    && Met(d.popped, script, d.aborted)
    && (d.aborted ==> d.popped != [])
  }

  /** The replies come in the order of the script, and the last one is unreadable if any is. */
  ghost predicate Met(popped: seq<(Request, Reply)>, script: seq<Reply>, aborted: bool) {
    forall k | 0 <= k < |popped| ::
      popped[k].1 == ReplyAt(script, k) && (Unreadable(popped[k].1) <==> aborted && k == |popped| - 1)
  }

  lemma MetAppend(popped: seq<(Request, Reply)>, script: seq<Reply>, last: (Request, Reply))
    requires Met(popped, script, false) && last.1 == ReplyAt(script, |popped|)
    ensures Met(popped + [last], script, Unreadable(last.1))
  {
  }

  /** One step takes the oldest request, notes its reply, and leaves the others queued in front of
      whatever its handler added. */
  lemma StepShape(d: Drain, reply: Reply)
    requires d.v.queue != []
    ensures var e := DrainStep(d, reply); var r := d.v.queue[0];
      && e.popped == d.popped + [(r, reply)]
      && e.pending == d.pending + (if FateOf(reply) == Pending then [r] else [])
      && e.aborted == Unreadable(reply)
      && d.v.queue[1..] <= e.v.queue
      && e.v.nRead - d.v.nRead == |e.v.queue| - |d.v.queue| + 1
  {
  }

  lemma RequestsAppend(popped: seq<(Request, Reply)>, last: (Request, Reply))
    ensures Requests(popped + [last]) == Requests(popped) + [last.0]
    ensures forall fate ::
      WithFate(popped + [last], fate) == WithFate(popped, fate) + (if FateOf(last.1) == fate then [last.0] else [])
  {
    assert (popped + [last])[..|popped|] == popped;
  }

  lemma SeenGrows(seen: seq<Request>, queue: seq<Request>, after: seq<Request>)
    requires queue != [] && queue[1..] <= after
    ensures seen + queue <= seen + [queue[0]] + after
  {
    assert queue == [queue[0]] + queue[1..];
  }

  lemma StepAccounted(v: View, script: seq<Reply>, d: Drain, e: Drain)
    requires Accounted(v, script, d) && !Finished(d) && e == DrainStep(d, ReplyAt(script, |d.popped|))
    ensures Accounted(v, script, e)
  {
    var reply := ReplyAt(script, |d.popped|);
    StepShape(d, reply);
    RequestsAppend(d.popped, (d.v.queue[0], reply));
    MetAppend(d.popped, script, (d.v.queue[0], reply));
    SeenGrows(Requests(d.popped), d.v.queue, e.v.queue);
  }

  lemma {:induction false} DrainedAccounted(v: View, script: seq<Reply>, d: Drain)
    requires Accounted(v, script, d) && d.v.nRead <= MAX_REQUESTS
    ensures Accounted(v, script, Drained(d, script))
    decreases MAX_REQUESTS - d.v.nRead + |d.v.queue|
  {
    if !Finished(d) {
      var e := DrainTurns(d, script);
      StepAccounted(v, script, d, e);
      DrainedAccounted(v, script, e);
    }
  }

  lemma {:induction false} FatesPartition(popped: seq<(Request, Reply)>)
    ensures multiset(Requests(popped)) ==
      multiset(WithFate(popped, Pending)) + multiset(WithFate(popped, Dispatched)) + multiset(WithFate(popped, Dropped))
    decreases |popped|
  {
    if popped != [] { FatesPartition(popped[..|popped| - 1]); }
  }

  /** A drain that meets no unreadable option: the requests popped are those queued at the start,
      in order, followed by those the handlers added, one slot each; every one of them is pending,
      dispatched or dropped, exactly once; and the queue afterwards is the pending ones in order,
      in the lowest slots. */
  lemma DrainConserves(v: View, script: seq<Reply>)
    requires Window(v) && !OnReadEvent(v, script).overrun
    requires !Drained(StartDrain(v), script).aborted
    ensures var d := Drained(StartDrain(v), script); var w := OnReadEvent(v, script); var all := Requests(d.popped);
      && v.queue <= all && |all| == |v.queue| + (d.v.nRead - v.nRead)
      && multiset(all) == multiset(w.queue) + multiset(WithFate(d.popped, Dispatched)) + multiset(WithFate(d.popped, Dropped))
      && w.queue == WithFate(d.popped, Pending) && w.nRead == |w.queue|
  {
    var d := AccountedAtEnd(v, script);
    FatesPartition(d.popped);
    assert Requests(d.popped) + [] == Requests(d.popped);
  }

  lemma AccountedAtEnd(v: View, script: seq<Reply>) returns (d: Drain)
    requires Window(v)
    ensures d == Drained(StartDrain(v), script) && Accounted(v, script, d) && Finished(d)
    ensures OnReadEvent(v, script) == Rewound(d)
  {
    d := Drained(StartDrain(v), script);
    assert Requests([]) + v.queue == v.queue;
    DrainedAccounted(v, script, StartDrain(v));
  }

  /** A drain that an unreadable option aborts: exactly the requests found pending so far and the
      failing one are lost; those not yet popped stay queued and the counter is not rewound. */
  lemma AbortLosesPending(v: View, script: seq<Reply>)
    requires Window(v) && !OnReadEvent(v, script).overrun
    requires Drained(StartDrain(v), script).aborted
    ensures var d := Drained(StartDrain(v), script); var w := OnReadEvent(v, script); var all := Requests(d.popped);
      && v.queue <= all + w.queue && |all| + |w.queue| == |v.queue| + (w.nRead - v.nRead)
      && multiset(all) == multiset(WithFate(d.popped, Pending)) + multiset(WithFate(d.popped, Dispatched)) + multiset(WithFate(d.popped, Dropped))
      && d.popped != [] && Unreadable(d.popped[|d.popped| - 1].1)
  {
    var d := AccountedAtEnd(v, script);
    FatesPartition(d.popped);
  }

  /** The same replies with every option readable. */
  function MadeReadable(script: seq<Reply>): seq<Reply> {
    seq(|script|, k requires 0 <= k < |script| => if Unreadable(script[k]) then Failed(true, true) else script[k])
  }

  ghost predicate MeetsUnreadable(script: seq<Reply>, from: nat, to: nat) {
    exists k | from <= k < to :: Unreadable(ReplyAt(script, k))
  }

  lemma MeetsNext(script: seq<Reply>, from: nat, to: nat)
    requires from < to
    ensures MeetsUnreadable(script, from, to) <==> Unreadable(ReplyAt(script, from)) || MeetsUnreadable(script, from + 1, to)
  {
  }

  /** When a drain under way aborts: compare it with the drain that can read every option. */
  lemma {:induction false} AbortsWhere(d: Drain, script: seq<Reply>)
    requires d.v.nRead <= MAX_REQUESTS && !d.aborted
    ensures var full := Drained(d, MadeReadable(script));
      && |d.popped| <= |full.popped| && !full.aborted
      && (Drained(d, script).aborted <==> MeetsUnreadable(script, |d.popped|, |full.popped|))
    decreases MAX_REQUESTS - d.v.nRead + |d.v.queue|
  {
    if !Finished(d) {
      var n := |d.popped|;
      var e := DrainTurns(d, script);
      var f := DrainTurns(d, MadeReadable(script));
      ReplyMadeReadable(script, n);
      StepAborts(d, ReplyAt(script, n));
      StepAborts(d, ReplyAt(MadeReadable(script), n));
      AbortsWhere(f, script);
      MeetsNext(script, n, |Drained(f, MadeReadable(script)).popped|);
    }
  }

  lemma ReplyMadeReadable(script: seq<Reply>, k: nat)
    ensures !Unreadable(ReplyAt(MadeReadable(script), k))
    ensures !Unreadable(ReplyAt(script, k)) ==> ReplyAt(MadeReadable(script), k) == ReplyAt(script, k)
  {
  }

  lemma StepAborts(d: Drain, reply: Reply)
    requires d.v.queue != []
    ensures DrainStep(d, reply).aborted == Unreadable(reply)
  {
  }

  /** A drain aborts exactly when one of the replies that a drain able to read every option would
      meet is unreadable. */
  lemma AbortIff(v: View, script: seq<Reply>)
    requires Window(v)
    ensures Drained(StartDrain(v), script).aborted
       <==> exists k | 0 <= k < |Drained(StartDrain(v), MadeReadable(script)).popped| :: Unreadable(ReplyAt(script, k))
  {
    AbortsWhere(StartDrain(v), script);
  }

  /** The number of requests one read event can pop is bounded beforehand. */
  lemma {:induction false} DrainIsBounded(d: Drain, script: seq<Reply>)
    requires d.v.nRead <= MAX_REQUESTS
    ensures |Drained(d, script).popped| <= |d.popped| + MAX_REQUESTS - d.v.nRead + |d.v.queue|
    decreases MAX_REQUESTS - d.v.nRead + |d.v.queue|
  {
    if !Finished(d) {
      var e := DrainTurns(d, script);
      DrainIsBounded(e, script);
    }
  }

  lemma FoundPending(d: Drain, e: Drain)
    requires d.v.queue != [] && e == DrainStep(d, NotYet)
    ensures e.v == d.v.(queue := d.v.queue[1..]) && !e.aborted && e.pending + e.v.queue == d.pending + d.v.queue
    ensures e.pending == d.pending + [d.v.queue[0]]
  {
  }

  /** Once the replies have run out everything queued is found pending. */
  lemma {:induction false} AllPending(d: Drain, script: seq<Reply>)
    requires InWindow(d) && !d.aborted && !d.v.overrun && |script| <= |d.popped|
    ensures var e := Drained(d, script);
      e.v == d.v.(queue := []) && e.pending == d.pending + d.v.queue && !e.aborted
    decreases |d.v.queue|
  {
    if d.v.queue != [] {
      var e := DrainTurns(d, script);
      FoundPending(d, e);
      AllPending(e, script);
    } else {
      assert d.pending + [] == d.pending;
    }
  }
}
