/** What reconnecting over a configure that fails can break, and exactly when. */
module Reconnection {
  import opened Conservation
  import M = Model
  import opened Model
  import opened Invariants
  import opened Guarantees
  import opened Outcomes

  lemma {:induction false} RunJoins(v: View, a: seq<Action>, b: seq<Action>)
    requires Window(v)
    ensures Run(v, a + b) == Run(Run(v, a), b)
    decreases |b|
  {
    if b == [] {
      assert a + b == a;
    } else {
      RunJoins(v, a, b[..|b| - 1]);
      assert (a + b)[..|a + b| - 1] == a + b[..|b| - 1];
    }
  }

  /* ---- A reconnection, step by step ---- */

  function GoesWell(id: int): Tick { Tick(Sent(id), BindSent(id), true, NotSent, NotSent, NotSent, Incomplete) }

  function Next(id: int): Action { Timer(GoesWell(id)) }

  /** From `v` to `w` the library gives out each id once per handle, and answers once what has been
      asked of the handle it has. */
  ghost predicate OwnAnswers(v: View, w: View) { WrongId in w.history.faults ==> WrongId in v.history.faults }

  /** The server's answers also suit what they answer. */
  ghost predicate FittingAnswers(v: View, w: View) {
    OwnAnswers(v, w) && (WrongKind in w.history.faults ==> WrongKind in v.history.faults)
  }

  /** Since the reconnection of `v`: the state, what is queued, and ids among which are all that the
      new handle has given out.  The handlers may still have to be installed, but once they are the
      connection listens. */
  ghost predicate Reached(v: View, w: View, state: State, queue: seq<Request>, used: set<int>) {
    && w.state == state && w.queue == queue && Window(w) && !w.overrun
    && w.useStartTls == v.useStartTls && w.bindType == v.bindType && w.reconnects == v.reconnects + 1
    && (w.handlersInstalled ==> w.listening)
    && w.history.asked.Keys <= used && w.history.answered <= used && FittingAnswers(v, w)
  }

  lemma ReconnectedTo(v: View, t: int) returns (w: View)
    requires Window(v) && !v.overrun && v.state == Error && v.reconnectAttempts < MAX_RECONNECT_ATTEMPTS
    ensures w == Step(v, Next(t)) && Reached(v, w, Init, v.queue, {}) && w.nRead == v.nRead && !w.history.tlsUp
  {
    w := Step(v, Next(t));
  }

  lemma SkipsTls(v: View, w: View, queue: seq<Request>, used: set<int>, id: int) returns (x: View)
    requires Reached(v, w, Init, queue, used) && !v.useStartTls
    ensures x == Step(w, Next(id)) && Reached(v, x, TransportReady, queue, used) && x.nRead == w.nRead
  {
    x := Step(w, Next(id));
  }

  lemma SendsTls(v: View, w: View, queue: seq<Request>, used: set<int>, id: int) returns (x: View)
    requires Reached(v, w, Init, queue, used) && v.useStartTls && w.nRead < MAX_REQUESTS && id !in used
    ensures x == Step(w, Next(id)) && Reached(v, x, TlsNegotiation, queue + [Request(id, StartTlsOnRead)], used + {id})
    ensures x.listening && x.history.tlsUp == w.history.tlsUp && Outstanding(x.history, id, StartTlsOnRead)
  {
    x := Step(w, Next(id));
  }

  lemma SendsBind(v: View, w: View, queue: seq<Request>, used: set<int>, id: int) returns (x: View)
    requires Reached(v, w, TransportReady, queue, used) && w.nRead < MAX_REQUESTS && id !in used
    ensures x == Step(w, Next(id)) && Reached(v, x, DetectDirectory, queue + [Request(id, BindOnRead)], used + {id})
    ensures x.listening
  {
    x := Step(w, Next(id));
  }

  lemma AsksOperation(v: View, w: View, state: State, queue: seq<Request>, used: set<int>, id: int) returns (x: View)
    requires Reached(v, w, state, queue, used) && w.nRead < MAX_REQUESTS && id !in used
    ensures x == Step(w, ApiCall(Operation(id))) && x.listening == w.listening
    ensures Reached(v, x, state, queue + [Request(id, OperationOnRead)], used + {id})
    ensures Outstanding(x.history, id, OperationOnRead)
  {
    x := Step(w, ApiCall(Operation(id)));
  }

  /* ---- A read event in which one request is answered or dropped ---- */

  function TlsDone(): Answer { Answer(ExtendedResponse, true, 0, true, SaslError, [], [], [], []) }

  function BindDone(): Answer { Answer(BindResponse, true, 0, true, SaslSuccess, [], [], [], []) }

  function AnswerTo(r: Request): Answer { if r.onRead == StartTlsOnRead then TlsDone() else BindDone() }

  predicate Quiet(v: View, r: Request, reply: Reply) {
    match reply
    case Answered(a) =>
      a == AnswerTo(r) && (r.onRead == StartTlsOnRead || (r.onRead == BindOnRead && v.bindType == Interactive))
    case Failed(codeReadable, messageReadable) => codeReadable && messageReadable
    case NotYet => false
  }

  function AfterAnswer(v: View, r: Request): View {
    if r.onRead == StartTlsOnRead then v.(state := TransportReady, history := v.history.(tlsUp := true))
    else CallsBind(v).(state := Bound)
  }

  function After(v: View, r: Request, reply: Reply): View {
    if reply.Answered? then AfterAnswer(Heard(v, r, reply.answer), r) else M.Dropped(v, r)
  }

  lemma QuietTurn(d: Drain, r: Request, reply: Reply)
    requires d.v.queue != [] && r == d.v.queue[0] && Quiet(d.v, r, reply)
    ensures var e := DrainStep(d, reply);
      e.v == After(d.v, r, reply).(queue := d.v.queue[1..]) && e.pending == d.pending && !e.aborted
  {
    SameAnswer(d.v, d.v.queue[1..], r, reply);
  }

  lemma SameAnswer(v: View, queue: seq<Request>, r: Request, reply: Reply)
    ensures After(v.(queue := queue), r, reply) == After(v, r, reply).(queue := queue)
  {
    if reply.Answered? {
      SameHeard(v, queue, r, reply.answer);
      SameAfterAnswer(Heard(v, r, reply.answer), queue, r);
    } else {
      SameDropped(v, queue, r);
    }
  }

  lemma SameHeard(v: View, queue: seq<Request>, r: Request, a: Answer)
    ensures Heard(v.(queue := queue), r, a) == Heard(v, r, a).(queue := queue)
  {
  }

  lemma SameDropped(v: View, queue: seq<Request>, r: Request)
    ensures M.Dropped(v.(queue := queue), r) == M.Dropped(v, r).(queue := queue)
  {
    var w := v.(queue := queue);
    if r.onRead == SearchOnRead {
      assert Blame(w, DroppedSearch) == Blame(v, DroppedSearch).(queue := queue);
      SameTransition(Blame(v, DroppedSearch), queue);
    } else {
      SameTransition(v, queue);
    }
  }

  lemma SameTransition(v: View, queue: seq<Request>)
    ensures OptionalTransitionOnError(v.(queue := queue)) == OptionalTransitionOnError(v).(queue := queue)
  {
  }

  lemma SameAfterAnswer(v: View, queue: seq<Request>, r: Request)
    ensures AfterAnswer(v.(queue := queue), r) == AfterAnswer(v, r).(queue := queue)
  {
    var w := v.(queue := queue);
    if r.onRead == StartTlsOnRead {
      assert w.history == v.history;
    } else {
      assert CallsBind(w) == CallsBind(v).(queue := queue);
    }
  }

  /** `e` is `d` after everything queued has been found pending, but for `r` in place `k`. */
  ghost predicate Only(d: Drain, k: nat, r: Request, reply: Reply, e: Drain)
    requires k < |d.v.queue|
  {
    && e.v == After(d.v, r, reply).(queue := []) && !e.aborted
    && e.pending == d.pending + d.v.queue[..k] + d.v.queue[k + 1..]
  }

  lemma RepliesFirst(d: Drain, script: seq<Reply>, r: Request, reply: Reply)
    requires InWindow(d) && !Finished(d) && |script| == |d.popped| + 1 && script[|d.popped|] == reply
    requires r == d.v.queue[0] && Quiet(d.v, r, reply)
    ensures Only(d, 0, r, reply, Drained(d, script))
  {
    var e := DrainTurns(d, script);
    QuietTurn(d, r, reply);
    AllPending(e, script);
    assert d.pending + d.v.queue[..0] == d.pending;
  }

  lemma OnlyLater(d: Drain, e: Drain, k: nat, r: Request, reply: Reply, f: Drain)
    requires 0 < k < |d.v.queue| && e.v == d.v.(queue := d.v.queue[1..]) && e.pending == d.pending + [d.v.queue[0]]
    requires Only(e, k - 1, r, reply, f)
    ensures Only(d, k, r, reply, f)
  {
    SameAnswer(d.v, d.v.queue[1..], r, reply);
    PendingInOrder(d.pending, d.v.queue, k);
  }

  lemma {:induction false} RepliesAt(d: Drain, i: nat, r: Request, reply: Reply)
    requires InWindow(d) && !d.aborted && !d.v.overrun && |d.popped| <= i < |d.popped| + |d.v.queue|
    requires r == d.v.queue[i - |d.popped|] && Quiet(d.v, r, reply)
    ensures Only(d, i - |d.popped|, r, reply, Drained(d, OnlyReply(i, reply)))
    decreases |d.v.queue|
  {
    var script, k := OnlyReply(i, reply), i - |d.popped|;
    if k == 0 {
      RepliesFirst(d, script, r, reply);
    } else {
      assert ReplyAt(script, |d.popped|) == NotYet;
      var e := DrainTurns(d, script);
      FoundPending(d, e);
      RepliesAt(e, i, r, reply);
      OnlyLater(d, e, k, r, reply, Drained(e, script));
    }
  }

  lemma PendingInOrder(pending: seq<Request>, queue: seq<Request>, k: nat)
    requires 0 < k < |queue|
    ensures var rest := queue[1..];
      pending + [queue[0]] + rest[..k - 1] + rest[k..] == pending + queue[..k] + queue[k + 1..]
  {
    assert queue[..k] == [queue[0]] + queue[1..][..k - 1];
    assert queue[1..][k..] == queue[k + 1..];
  }

  lemma Reads(w: View, i: nat, reply: Reply) returns (x: View)
    requires Window(w) && !w.overrun && w.listening && i < |w.queue| && Quiet(w, w.queue[i], reply)
    ensures x == Step(w, Reading(i, reply))
    ensures x == After(w, w.queue[i], reply).(queue := Without(w.queue, i), nRead := |w.queue| - 1)
  {
    x := Step(w, Reading(i, reply));
    RepliesAt(StartDrain(w), i, w.queue[i], reply);
    assert [] + w.queue[..i] == w.queue[..i];
  }

  lemma ReadsNothing(w: View) returns (x: View)
    requires Window(w) && !w.overrun && w.listening
    ensures x == Step(w, ReadEvent([])) && x == w.(nRead := |w.queue|)
  {
    x := Step(w, ReadEvent([]));
    AllPending(StartDrain(w), []);
    assert [] + w.queue == w.queue;
  }

  lemma RunTwo(v: View, a: Action, b: Action)
    requires Window(v)
    ensures Run(v, [a, b]) == Step(Step(v, a), b)
  {
    RunEnds(v, [], a);
    RunEnds(v, [a], b);
    assert [] + [a] == [a] && [a] + [b] == [a, b];
  }

  /* ---- A bind call before the handshake ---- */

  /** `t` is the step that reconnects `v`, and `more` what happens until the next one. */
  ghost predicate BareAfter(v: View, t: Tick, more: seq<Action>)
    requires Window(v)
  {
    var w := Run(Step(v, Timer(t)), more);
    w.reconnects == v.reconnects + 1 && !w.overrun && OwnAnswers(v, w) && w.history.bareBind
  }

  /** From any state in ERROR where the guarantee still stands, with a library that keeps to its
      contract but a server that may answer an operation with any message: between this reconnection
      and the next a bind call can be made before the handshake exactly when an interactive bind
      request is queued now, which an incomplete configure then leaves there. */
  lemma BareBindIff(v: View)
    requires Good(v, v.queue) && !v.overrun && v.nRead < MAX_REQUESTS && v.useStartTls && KeptBind !in v.history.faults
    requires v.state == Error && v.reconnectAttempts < MAX_RECONNECT_ATTEMPTS
    ensures (exists t, more :: BareAfter(v, t, more))
       <==> v.bindType == Interactive && exists r | r in v.queue :: r.onRead == BindOnRead
  {
    if v.bindType == Interactive && exists r | r in v.queue :: r.onRead == BindOnRead {
      var i :| 0 <= i < |v.queue| && v.queue[i].onRead == BindOnRead;
      var t, more := BindsBare(v, i);
    } else {
      forall t, more ensures !BareAfter(v, t, more) { StaysGuarded(v, t, more); }
    }
  }

  lemma StaysGuarded(v: View, t: Tick, more: seq<Action>)
    requires Good(v, v.queue) && !v.overrun && v.useStartTls && KeptBind !in v.history.faults
    requires v.state == Error && v.reconnectAttempts < MAX_RECONNECT_ATTEMPTS
    requires !(v.bindType == Interactive && exists r | r in v.queue :: r.onRead == BindOnRead)
    ensures !BareAfter(v, t, more)
  {
    var u := Step(v, Timer(t));
    StepErrorGood(v, t);
    assert KeptBind !in u.history.faults && u.reconnects == v.reconnects + 1;
    if !Run(u, more).overrun { RunStaysGood(u, more); }
  }

  /** The new handle gives the id of the kept request to its own StartTLS operation, and what the
      server answers to that is taken for the answer to the kept request. */
  lemma BindsBare(v: View, i: nat) returns (t: Tick, more: seq<Action>)
    requires Window(v) && !v.overrun && v.nRead < MAX_REQUESTS && v.useStartTls && v.bindType == Interactive
    requires v.state == Error && v.reconnectAttempts < MAX_RECONNECT_ATTEMPTS
    requires i < |v.queue| && v.queue[i].onRead == BindOnRead
    ensures BareAfter(v, t, more)
  {
    var k, reply := v.queue[i].msgid, Answered(BindDone());
    var w := ReconnectedTo(v, k);
    var x := SendsTls(v, w, v.queue, {}, k);
    assert x.queue[i] == v.queue[i];
    var y := Reads(x, i, reply);
    t, more := GoesWell(k), [Next(k), Reading(i, reply)];
    RunTwo(w, Next(k), Reading(i, reply));
  }

  lemma Handshaken() returns (v: View, actions: seq<Action>)
    ensures v == Run(Configured(true, Interactive), actions) && v.state == TransportReady && v.queue == []
    ensures v.nRead == 0 && !v.overrun && v.useStartTls && v.bindType == Interactive && v.handlersInstalled
    ensures v.history.issued == v.history.asked.Keys == {1} && v.history.faults == {} && v.reconnectAttempts == 0
    ensures v.directoryType == Uninitialized
  {
    var c := Configured(true, Interactive);
    var a := AsksTls();
    v := Reads(a, 0, Answered(TlsDone()));
    actions := [Next(1), Reading(0, Answered(TlsDone()))];
    RunTwo(c, Next(1), Reading(0, Answered(TlsDone())));
  }

  lemma AsksTls() returns (v: View)
    ensures v == Step(Configured(true, Interactive), Next(1)) && v.queue == [Request(1, StartTlsOnRead)] && v.nRead == 1
    ensures !v.overrun && v.useStartTls && v.bindType == Interactive && v.handlersInstalled && v.listening
    ensures v.history.issued == v.history.asked.Keys == {1} && v.history.faults == {} && v.history.answered == {}
    ensures v.history.asked[1] == StartTlsOnRead && v.reconnectAttempts == 0 && v.directoryType == Uninitialized
  {
    v := Step(Configured(true, Interactive), Next(1));
  }

  /** The search for the directory type is refused before the bind is answered. */
  lemma BindsAndFails(v: View) returns (w: View)
    requires v.state == TransportReady && v.queue == [] && v.nRead == 0 && !v.overrun && v.handlersInstalled
    requires v.history.issued == v.history.asked.Keys == {1} && v.history.faults == {}
    requires v.directoryType == Uninitialized
    ensures w == Step(Step(v, Next(2)), Next(3)) && w.state == Error && w.queue == [Request(2, BindOnRead)] && w.nRead == 1
    ensures !w.overrun && w.history.faults == {}
    ensures w.useStartTls == v.useStartTls && w.bindType == v.bindType && w.reconnectAttempts == v.reconnectAttempts
  {
    w := Step(Step(v, Next(2)), Next(3));
  }

  /** The request kept is a real one: handshake, bind, failure before the bind is answered. */
  lemma ReachesKeptBind() returns (v: View, actions: seq<Action>)
    ensures v == Run(Configured(true, Interactive), actions) && v.state == Error && v.queue == [Request(2, BindOnRead)]
    ensures v.nRead == 1 && !v.overrun && v.useStartTls && v.bindType == Interactive && v.reconnectAttempts == 0
    ensures v.history.faults == {}
  {
    var u, before := Handshaken();
    v := BindsAndFails(u);
    actions := before + [Next(2), Next(3)];
    RunTwo(u, Next(2), Next(3));
    RunJoins(Configured(true, Interactive), before, [Next(2), Next(3)]);
  }

  lemma RunsOn(c: View, before: seq<Action>, t: Tick, more: seq<Action>)
    requires Window(c)
    ensures Run(c, before + ([Timer(t)] + more)) == Run(Step(Run(c, before), Timer(t)), more)
  {
    RunJoins(c, before, [Timer(t)] + more);
    RunJoins(Run(c, before), [Timer(t)], more);
    RunEnds(Run(c, before), [], Timer(t));
    assert [] + [Timer(t)] == [Timer(t)];
  }

  /** So there is a run, in which the library keeps to its contract throughout, with a bind call
      before the handshake. */
  lemma BareBindHappens() returns (actions: seq<Action>)
    ensures var w := Run(Configured(true, Interactive), actions);
      w.history.bareBind && !w.overrun && WrongId !in w.history.faults
  {
    var v, before := ReachesKeptBind();
    var t, more := BindsBare(v, 0);
    actions := before + ([Timer(t)] + more);
    RunsOn(Configured(true, Interactive), before, t, more);
  }

  /* ---- A second bind request in flight ---- */

  ghost predicate TwoBinds(q: seq<Request>) {
    exists i, j | 0 <= i < j < |q| :: q[i].onRead == BindOnRead && q[j].onRead == BindOnRead
  }

  ghost predicate TwoBindsAfter(v: View, t: Tick, more: seq<Action>)
    requires Window(v)
  {
    var w := Run(Step(v, Timer(t)), more);
    w.reconnects == v.reconnects + 1 && !w.overrun && FittingAnswers(v, w) && TwoBinds(w.queue)
  }

  /** Every state that a run from `w` leads to. */
  ghost function ReachableFrom(w: View): iset<View>
    requires Window(w)
  {
    iset more: seq<Action> :: Run(w, more)
  }

  ghost predicate Closed(states: iset<View>) {
    forall x, a | x in states && Window(x) :: Step(x, a) in states
  }

  lemma ReachableIsClosed(w: View)
    requires Window(w)
    ensures w in ReachableFrom(w) && Closed(ReachableFrom(w))
  {
    assert Run(w, []) == w;
    forall x, a | x in ReachableFrom(w) && Window(x) ensures Step(x, a) in ReachableFrom(w) {
      var more: seq<Action> :| Run(w, more) == x;
      RunEnds(w, more, a);
    }
  }

  lemma ReadsTls(v: View, w: View, state: State, queue: seq<Request>, used: set<int>, i: nat) returns (x: View)
    requires Reached(v, w, state, queue, used) && w.listening && i < |queue| && queue[i].onRead == StartTlsOnRead
    requires Outstanding(w.history, queue[i].msgid, StartTlsOnRead) || Outstanding(w.history, queue[i].msgid, OperationOnRead)
    ensures x == Step(w, Reading(i, Answered(TlsDone()))) && Reached(v, x, TransportReady, Without(queue, i), used)
    ensures x.nRead == |queue| - 1 && x.listening
  {
    x := Reads(w, i, Answered(TlsDone()));
  }

  /** Up to the state that may bind, without having answered anything queued before. */
  lemma GetsReady(states: iset<View>, v: View, w: View, id: int) returns (x: View)
    requires Closed(states) && w in states && Reached(v, w, Init, v.queue, {}) && w.nRead == v.nRead < MAX_REQUESTS
    ensures x in states && Reached(v, x, TransportReady, v.queue, {id}) && x.nRead < MAX_REQUESTS
  {
    if v.useStartTls {
      var tls := Request(id, StartTlsOnRead);
      var sent := SendsTls(v, w, v.queue, {}, id);
      assert {} + {id} == {id};
      x := ReadsTls(v, sent, TlsNegotiation, v.queue + [tls], {id}, |v.queue|);
      assert Without(v.queue + [tls], |v.queue|) == v.queue;
    } else {
      x := SkipsTls(v, w, v.queue, {}, id);
    }
  }

  lemma HasTwoBinds(front: seq<Request>, i: nat, last: Request)
    requires i < |front| && front[i].onRead == BindOnRead && last.onRead == BindOnRead
    ensures TwoBinds(front + [last])
  {
    var q := front + [last];
    assert q[i].onRead == BindOnRead && q[|front|].onRead == BindOnRead;
  }

  /** A kept bind request, and the one of the new connection. */
  lemma BindsAgain(states: iset<View>, v: View, w: View, i: nat) returns (x: View)
    requires Closed(states) && w in states && Reached(v, w, Init, v.queue, {}) && w.nRead == v.nRead < MAX_REQUESTS
    requires i < |v.queue| && v.queue[i].onRead == BindOnRead
    ensures x in states && x.reconnects == v.reconnects + 1 && !x.overrun && FittingAnswers(v, x) && TwoBinds(x.queue)
  {
    var ready := GetsReady(states, v, w, 1);
    x := SendsBind(v, ready, v.queue, {1}, 2);
    HasTwoBinds(v.queue, i, Request(2, BindOnRead));
  }

  lemma WithoutAt<T>(s: seq<T>, k: nat, i: nat)
    requires k < |s| && i < |s| && i != k
    ensures |Without(s, k)| == |s| - 1 && Without(s, k)[if i < k then i else i - 1] == s[i]
  {
  }

  lemma OthersStay(queue: seq<Request>, k: nat, i: nat)
    requires i < |queue| - 1 && k < |queue| - 1 && k != i
    ensures var rest := Without(queue, k); var j := if i < k then i else i - 1;
      j < |rest| - 1 && rest[j] == queue[i] && rest[|rest| - 1] == queue[|queue| - 1] && |rest| == |queue| - 1
  {
    WithoutAt(queue, k, i);
    WithoutAt(queue, k, |queue| - 1);
  }

  lemma DroppedReached(v: View, x: View, queue: seq<Request>, used: set<int>, k: nat)
    requires Reached(v, x, DetectDirectory, queue, used) && k < |queue|
    ensures var y := M.Dropped(x, queue[k]).(queue := Without(queue, k), nRead := |queue| - 1);
      Reached(v, y, DetectDirectory, Without(queue, k), used) && y.listening == x.listening
  {
  }

  lemma Drops(v: View, w: View, queue: seq<Request>, used: set<int>, k: nat) returns (x: View)
    requires Reached(v, w, DetectDirectory, queue, used) && w.listening && k < |queue|
    ensures x == Step(w, Reading(k, Failed(true, true))) && Reached(v, x, DetectDirectory, Without(queue, k), used)
    ensures x.listening && x.nRead == |queue| - 1
  {
    x := Reads(w, k, Failed(true, true));
    DroppedReached(v, w, queue, used, k);
  }

  /** One more slot becomes free, by a rewind or by dropping a request that is neither the one at `i`
      nor the last. */
  lemma MakesRoom(states: iset<View>, v: View, w: View, queue: seq<Request>, used: set<int>, i: nat)
    returns (x: View, rest: seq<Request>, j: nat)
    requires Closed(states) && w in states && Reached(v, w, DetectDirectory, queue, used) && w.listening
    requires i < |queue| - 1
    ensures x in states && Reached(v, x, DetectDirectory, rest, used) && x.listening && x.nRead < MAX_REQUESTS
    ensures j < |rest| - 1 && rest[j] == queue[i] && rest[|rest| - 1] == queue[|queue| - 1]
  {
    if |queue| < MAX_REQUESTS {
      x := ReadsNothing(w);
      rest, j := queue, i;
    } else {
      var k := if i == 0 then 1 else 0;
      x := Drops(v, w, queue, used, k);
      OthersStay(queue, k, i);
      rest, j := Without(queue, k), if i == 0 then 0 else i - 1;
    }
  }

  /** The new handle gives the id of the kept TLS request to an operation of the application, whose
      answer the kept request's handler takes, and another bind follows. */
  lemma BindsAfterStale(states: iset<View>, v: View, w: View, queue: seq<Request>, used: set<int>, i: nat, id: int)
    returns (x: View)
    requires Closed(states) && w in states && Reached(v, w, DetectDirectory, queue, used) && w.listening && w.nRead < MAX_REQUESTS
    requires i < |queue| - 1 && queue[i].onRead == StartTlsOnRead && queue[|queue| - 1].onRead == BindOnRead
    requires queue[i].msgid !in used && id !in used && id != queue[i].msgid
    ensures x in states && x.reconnects == v.reconnects + 1 && !x.overrun && FittingAnswers(v, x) && TwoBinds(x.queue)
  {
    var k := queue[i].msgid;
    var longer := queue + [Request(k, OperationOnRead)];
    var asked := AsksOperation(v, w, DetectDirectory, queue, used, k);
    var ready := ReadsTls(v, asked, DetectDirectory, longer, used + {k}, i);
    WithoutAt(longer, i, |queue| - 1);
    x := SendsBind(v, ready, Without(longer, i), used + {k}, id);
    HasTwoBinds(Without(longer, i), |queue| - 2, Request(id, BindOnRead));
  }

  /** A kept TLS request is answered as well as the new one, and each answer is followed by a bind. */
  lemma BindsTwice(states: iset<View>, v: View, w: View, i: nat) returns (x: View)
    requires Closed(states) && w in states && Reached(v, w, Init, v.queue, {}) && w.nRead == v.nRead < MAX_REQUESTS
    requires i < |v.queue| && v.queue[i].onRead == StartTlsOnRead
    ensures x in states && x.reconnects == v.reconnects + 1 && !x.overrun && FittingAnswers(v, x) && TwoBinds(x.queue)
  {
    var k := v.queue[i].msgid;
    var used := {k + 1} + {k + 2};
    var ready := GetsReady(states, v, w, k + 1);
    var bound := SendsBind(v, ready, v.queue, {k + 1}, k + 2);
    var roomy, queue, j := MakesRoom(states, v, bound, v.queue + [Request(k + 2, BindOnRead)], used, i);
    x := BindsAfterStale(states, v, roomy, queue, used, j, k + 3);
  }

  lemma BothBind(v: View, i: nat) returns (t: Tick, more: seq<Action>)
    requires Window(v) && !v.overrun && v.nRead < MAX_REQUESTS
    requires v.state == Error && v.reconnectAttempts < MAX_RECONNECT_ATTEMPTS
    requires i < |v.queue| && IsHandshake(v.queue[i])
    ensures TwoBindsAfter(v, t, more)
  {
    t := GoesWell(0);
    var w := ReconnectedTo(v, 0);
    ReachableIsClosed(w);
    var x;
    if v.queue[i].onRead == BindOnRead {
      x := BindsAgain(ReachableFrom(w), v, w, i);
    } else {
      x := BindsTwice(ReachableFrom(w), v, w, i);
    }
    more :| Run(w, more) == x;
  }

  /** From any state in ERROR where the guarantee still stands, with a library that keeps to its
      contract and a server that keeps to the protocol: between this reconnection and the next two
      bind requests can be in flight exactly when a TLS or bind request is queued now. */
  lemma TwoBindsIff(v: View)
    requires Good(v, v.queue) && !v.overrun && v.nRead < MAX_REQUESTS && KeptHandshake !in v.history.faults
    requires v.state == Error && v.reconnectAttempts < MAX_RECONNECT_ATTEMPTS
    ensures (exists t, more :: TwoBindsAfter(v, t, more)) <==> exists r | r in v.queue :: IsHandshake(r)
  {
    if r :| r in v.queue && IsHandshake(r) {
      var i :| 0 <= i < |v.queue| && v.queue[i] == r;
      var t, more := BothBind(v, i);
    } else {
      forall t, more ensures !TwoBindsAfter(v, t, more) { StaysSingle(v, t, more); }
    }
  }

  lemma StaysSingle(v: View, t: Tick, more: seq<Action>)
    requires Good(v, v.queue) && !v.overrun && KeptHandshake !in v.history.faults
    requires v.state == Error && v.reconnectAttempts < MAX_RECONNECT_ATTEMPTS
    requires forall r | r in v.queue :: !IsHandshake(r)
    ensures !TwoBindsAfter(v, t, more)
  {
    var u := Step(v, Timer(t));
    StepErrorGood(v, t);
    assert KeptHandshake !in u.history.faults && u.reconnects == v.reconnects + 1;
    var w := Run(u, more);
    if w.reconnects == u.reconnects && !w.overrun {
      RunStaysGood(u, more);
      if TwoBinds(w.queue) { CountsBoth(w.queue); }
    }
  }

  lemma CountsBoth(q: seq<Request>)
    requires TwoBinds(q)
    ensures Handshakes(q) >= 2
  {
    var i, j :| 0 <= i < j < |q| && q[i].onRead == BindOnRead && q[j].onRead == BindOnRead;
    TwoHandshakes(q, i, j);
  }

  /** A run in which neither the library nor the server does anything wrong, and two bind requests end
      up in flight. */
  lemma TwoBindsHappen() returns (actions: seq<Action>)
    ensures var w := Run(Configured(true, Interactive), actions);
      TwoBinds(w.queue) && !w.overrun && Conforming(w.history)
  {
    var v, before := ReachesKeptBind();
    var t, more := BothBind(v, 0);
    actions := before + ([Timer(t)] + more);
    RunsOn(Configured(true, Interactive), before, t, more);
  }
}
