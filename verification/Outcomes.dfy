/** What an API call or a read event leads to, told from the state before and the answers alone. */
module Outcomes {
  import opened Prelude
  import opened SchemaTable
  import M = Model
  import opened Model
  import opened Conservation
  import opened Directory
  import opened Invariants

  /* ---- API calls ---- */

  function RequestOf(call: Call): Request {
    Request(call.msgid, if call.Search? then SearchOnRead else OperationOnRead)
  }

  /** The record that a search asks for: its id and user data, and its callback, or the one that
      prints where NULL was given. */
  predicate RecordOf(call: Call, record: SearchRecord) {
    && call.Search? && record.msgid == call.msgid && record.userData == call.userData
    && record.callback == if call.callback == NoCallback then PrintEntries else call.callback
  }

  /** A call is queued behind the others; a search is entered last in the registry if it has room. */
  lemma CallOutcome(v: View, call: Call)
    requires !v.overrun && v.nRead < 8192
    ensures var w := Step(v, ApiCall(call));
      && w == v.(queue := v.queue + [RequestOf(call)], nRead := v.nRead + 1, registry := w.registry, history := w.history)
      && (if call.Search? && |v.registry| < 8191
          then |w.registry| == |v.registry| + 1 && v.registry <= w.registry && RecordOf(call, w.registry[|v.registry|])
          else w.registry == v.registry)
  {
  }

  function RequestsOf(calls: seq<Call>): seq<Request> { seq(|calls|, k requires 0 <= k < |calls| => RequestOf(calls[k])) }

  lemma PerformedInOrder(queue: seq<Request>, calls: seq<Call>)
    requires calls != []
    ensures queue + [RequestOf(calls[0])] + RequestsOf(calls[1..]) == queue + RequestsOf(calls)
  {
  }

  /** Several calls are queued in their order, and nothing else but the registry changes. */
  lemma {:induction false} CallsOutcome(v: View, calls: seq<Call>)
    requires !PerformAll(v, calls).overrun
    ensures var w := PerformAll(v, calls);
      && w == v.(queue := w.queue, nRead := w.nRead, registry := w.registry, history := w.history)
      && w.queue == v.queue + RequestsOf(calls) && w.nRead == v.nRead + |calls|
    decreases |calls|
  {
    if calls != [] {
      PerformOutcome(v, calls[0]);
      CallsOutcome(Perform(v, calls[0]), calls[1..]);
      PerformedInOrder(v.queue, calls);
    } else {
      assert v.queue + [] == v.queue;
    }
  }

  lemma PerformOutcome(v: View, call: Call)
    requires !Perform(v, call).overrun
    ensures var w := Perform(v, call);
      && w == v.(queue := w.queue, nRead := w.nRead, registry := w.registry, history := w.history)
      && w.queue == v.queue + [RequestOf(call)] && w.nRead == v.nRead + 1
  {
  }

  ghost predicate Entered(call: Call, registry: seq<SearchRecord>) {
    exists j | 0 <= j < |registry| :: RecordOf(call, registry[j])
  }

  /** While there is room each of the searches is entered. */
  lemma {:induction false} CallsAreEntered(v: View, calls: seq<Call>, k: nat)
    requires !PerformAll(v, calls).overrun && |v.registry| + |calls| < 8192 && k < |calls| && calls[k].Search?
    ensures Entered(calls[k], PerformAll(v, calls).registry)
    decreases |calls|
  {
    var u := Perform(v, calls[0]);
    var w := PerformAll(v, calls);
    if k == 0 {
      assert RecordOf(calls[0], u.registry[|v.registry|]) && u.registry <= w.registry;
      assert w.registry[|v.registry|] == u.registry[|v.registry|];
    } else {
      CallsAreEntered(u, calls[1..], k - 1);
    }
  }

  /* ---- A read event in which nothing is answered ---- */

  ghost predicate DropsOne(script: seq<Reply>, from: nat, to: nat) {
    exists k | from <= k < to && k < |script| ::
      script[k] == Failed(true, true) && forall j | from <= j < k :: !Unreadable(script[j])
  }

  lemma DropsNowOrLater(script: seq<Reply>, from: nat, to: nat)
    requires from < to
    ensures DropsOne(script, from, to) <==>
      from < |script| && !Unreadable(script[from]) && (script[from] == Failed(true, true) || DropsOne(script, from + 1, to))
  {
  }

  predicate Connecting(state: State) { state == TlsNegotiation || state == BindInProgress }

  ghost predicate Unanswered(script: seq<Reply>) { forall r | r in script :: !r.Answered? }

  lemma UnansweredTurn(d: Drain, reply: Reply)
    requires !Finished(d) && !reply.Answered?
    ensures var e := DrainStep(d, reply);
      && e.v == d.v.(state := e.v.state, queue := d.v.queue[1..], history := e.v.history) && |e.popped| == |d.popped| + 1
      && e.v.state == (if reply == Failed(true, true) && Connecting(d.v.state) then Error else d.v.state)
      && e.aborted == Unreadable(reply)
  {
    var v := d.v.(queue := d.v.queue[1..]);
    if reply.Failed? { DroppedOutcome(v, d.v.queue[0]); }
  }

  lemma DroppedOutcome(v: View, r: Request)
    ensures var w := M.Dropped(v, r);
      w == v.(state := if Connecting(v.state) then Error else v.state, history := w.history)
  {
    var u := if r.onRead == SearchOnRead then Blame(v, DroppedSearch) else v;
    assert u == v.(history := u.history);
  }

  lemma {:induction false} UnansweredDrain(d: Drain, script: seq<Reply>)
    requires d.v.nRead <= MAX_REQUESTS && !d.v.overrun && !d.aborted && Unanswered(script)
    ensures var e := Drained(d, script);
      && e.v == d.v.(state := e.v.state, queue := e.v.queue, history := e.v.history)
      && e.v.state ==
           if Connecting(d.v.state) && DropsOne(script, |d.popped|, |d.popped| + |d.v.queue|) then Error else d.v.state
    decreases |d.v.queue|
  {
    if d.v.queue != [] {
      var n := |d.popped|;
      var reply := ReplyAt(script, n);
      var e := DrainTurns(d, script);
      UnansweredTurn(d, reply);
      DropsNowOrLater(script, n, n + |d.v.queue|);
      if !e.aborted { UnansweredDrain(e, script); }
    }
  }

  /** Requests that fail take a connection that is negotiating TLS or binding to ERROR, unless an
      unreadable option has ended the event before; nothing else changes the state. */
  lemma UnansweredRead(v: View, script: seq<Reply>)
    requires Window(v) && !v.overrun && v.listening && Unanswered(script)
    ensures var w := Step(v, ReadEvent(script));
      && w == v.(state := w.state, queue := w.queue, nRead := w.nRead, history := w.history)
      && w.state == if Connecting(v.state) && DropsOne(script, 0, |v.queue|) then Error else v.state
  {
    UnansweredDrain(StartDrain(v), script);
  }

  /** In particular, when every option is readable. */
  lemma FailedRead(v: View, script: seq<Reply>)
    requires Window(v) && !v.overrun && v.listening && forall r | r in script :: r == NotYet || r == Failed(true, true)
    ensures Step(v, ReadEvent(script)).state ==
      if (v.state == TlsNegotiation || v.state == BindInProgress)
        && exists k | 0 <= k < |v.queue| && k < |script| :: script[k].Failed?
      then Error else v.state
  {
    UnansweredRead(v, script);
    if k :| 0 <= k < |v.queue| && k < |script| && script[k].Failed? {
      assert script[k] in script && script[k] == Failed(true, true);
      assert forall j | 0 <= j < k :: script[j] in script;
    }
  }

  /* ---- A read event in which one request is answered ---- */

  function OnlyReply(i: nat, reply: Reply): seq<Reply> { seq(i, _ => NotYet) + [reply] }

  function Reading(i: nat, reply: Reply): Action { ReadEvent(OnlyReply(i, reply)) }

  /** The handler of `v.queue[i]` has run, with the later requests still queued. */
  function Handled(v: View, i: nat, a: Answer): View
    requires i < |v.queue|
  {
    Deliver(v.(queue := v.queue[i + 1..]), v.queue[i], a)
  }

  /** `e` is `d` after the request at `i` has been answered and all others were found pending. */
  ghost predicate Over(v: View, i: nat, a: Answer, e: Drain)
    requires i < |v.queue|
  {
    var u := Handled(v, i, a);
    !e.aborted && e.v == u.(queue := []) && e.pending == v.queue[..i] + u.queue
  }

  lemma AnswerTurn(v: View, d: Drain, i: nat, a: Answer, script: seq<Reply>)
    requires Window(v) && !v.overrun && i == |d.popped| < |v.queue| && !d.aborted && |script| == i + 1 && script[i] == Answered(a)
    requires d.v == v.(queue := v.queue[i..]) && d.pending == v.queue[..i] && !Handled(v, i, a).overrun
    ensures Over(v, i, a, Drained(d, script))
  {
    var e := DrainTurns(d, script);
    assert v.queue[i..][1..] == v.queue[i + 1..];
    assert e.v == Handled(v, i, a);
    AllPending(e, script);
  }

  lemma {:induction false} ReachesAnswer(v: View, d: Drain, i: nat, a: Answer)
    requires Window(v) && !v.overrun && |d.popped| <= i < |v.queue| && !d.aborted && !Handled(v, i, a).overrun
    requires d.v == v.(queue := v.queue[|d.popped|..]) && d.pending == v.queue[..|d.popped|]
    ensures Over(v, i, a, Drained(d, OnlyReply(i, Answered(a))))
    decreases i - |d.popped|
  {
    var script := OnlyReply(i, Answered(a));
    var n := |d.popped|;
    if n < i {
      assert ReplyAt(script, n) == NotYet;
      var e := DrainTurns(d, script);
      FoundPending(d, e);
      assert v.queue[n..][1..] == v.queue[n + 1..] && v.queue[..n] + [v.queue[n]] == v.queue[..n + 1];
      ReachesAnswer(v, e, i, a);
    } else {
      AnswerTurn(v, d, i, a, script);
    }
  }

  /** The answered request goes, and what its handler has queued comes last. */
  lemma OneAnswered(v: View, i: nat, a: Answer)
    requires Window(v) && !v.overrun && v.listening && i < |v.queue| && !Handled(v, i, a).overrun
    ensures var u := Handled(v, i, a);
      Step(v, Reading(i, Answered(a))) == u.(queue := v.queue[..i] + u.queue, nRead := i + |u.queue|)
  {
    ReachesAnswer(v, StartDrain(v), i, a);
  }

  /* ---- What each handler makes of its answer ---- */

  ghost predicate Ready(v: View, i: nat, onRead: Handler) {
    Window(v) && !v.overrun && v.listening && i < |v.queue| && v.queue[i].onRead == onRead
  }

  /** The request is gone, these have come behind the others, and the rest of what handlers may not
      touch is as it was. */
  ghost predicate Settled(v: View, i: nat, more: seq<Request>, w: View)
    requires i < |v.queue|
  {
    && w.queue == Without(v.queue, i) + more && w.nRead == |w.queue| && !w.overrun
    && w.useStartTls == v.useStartTls && w.bindType == v.bindType && w.reconnectAttempts == v.reconnectAttempts
    && w.handlersInstalled == v.handlersInstalled && w.listening && w.reconnects == v.reconnects && w.resets == v.resets
  }

  lemma Resettled(queue: seq<Request>, i: nat, more: seq<Request>)
    requires i < |queue|
    ensures queue[..i] + (queue[i + 1..] + more) == Without(queue, i) + more
    ensures queue[..i] + queue[i + 1..] == Without(queue, i) + []
  {
  }

  /** A TLS response: ready for the bind if TLS is up, an error if it is not and the library can say
      why. */
  lemma AnsweredTls(v: View, i: nat, a: Answer)
    requires Ready(v, i, StartTlsOnRead)
    ensures var w := Step(v, Reading(i, Answered(a))); var extended := a.kind == ExtendedResponse;
      && Settled(v, i, [], w)
      && w == v.(state := w.state, queue := w.queue, nRead := w.nRead, history := w.history)
      && (extended && a.tlsInstalled ==> w.state == TransportReady && w.history.tlsUp)
      && (extended && !a.tlsInstalled && a.optionsReadable ==> w.state == Error)
      && (!extended || (!a.tlsInstalled && !a.optionsReadable) ==> w.state == v.state)
      && (!extended || !a.tlsInstalled ==> w.history.tlsUp == v.history.tlsUp)
  {
    OneAnswered(v, i, a);
    Resettled(v.queue, i, []);
  }

  predicate Continues(v: View, a: Answer) {
    a.kind == BindResponse && v.bindType == Interactive && a.sasl.SaslInProgress?
  }

  predicate BindDone(v: View, a: Answer) { a.kind == BindResponse && v.bindType == Interactive && a.sasl.SaslSuccess? }

  /** A bind response: one more bind request if the mechanism goes on, BOUND if it is through, ERROR
      if the library reports an error.  A simple bind is never found to be through. */
  lemma AnsweredBind(v: View, i: nat, a: Answer)
    requires Ready(v, i, BindOnRead) && (Continues(v, a) ==> v.nRead < 8192)
    ensures var w := Step(v, Reading(i, Answered(a)));
      && Settled(v, i, if Continues(v, a) then [Request(a.sasl.msgid, BindOnRead)] else [], w)
      && w == v.(state := w.state, queue := w.queue, nRead := w.nRead, history := w.history)
      && (BindDone(v, a) ==> w.state == Bound)
      && (a.kind == BindResponse && !Continues(v, a) && !BindDone(v, a) ==>
            w.state == if a.optionsReadable && a.resultCode != 0 then Error else v.state)
      && (a.kind != BindResponse || Continues(v, a) ==> w.state == v.state)
  {
    if Continues(v, a) { BindGoesOn(v, i, a); } else { BindEnds(v, i, a); }
  }

  lemma BindGoesOn(v: View, i: nat, a: Answer)
    requires Ready(v, i, BindOnRead) && Continues(v, a) && v.nRead < 8192
    ensures var w := Step(v, Reading(i, Answered(a)));
      && Settled(v, i, [Request(a.sasl.msgid, BindOnRead)], w)
      && w == v.(queue := w.queue, nRead := w.nRead, history := w.history)
  {
    OneAnswered(v, i, a);
    Resettled(v.queue, i, [Request(a.sasl.msgid, BindOnRead)]);
  }

  lemma BindEnds(v: View, i: nat, a: Answer)
    requires Ready(v, i, BindOnRead) && !Continues(v, a)
    ensures var w := Step(v, Reading(i, Answered(a)));
      && Settled(v, i, [], w)
      && w == v.(state := w.state, queue := w.queue, nRead := w.nRead, history := w.history)
      && (BindDone(v, a) ==> w.state == Bound)
      && (a.kind == BindResponse && !BindDone(v, a) ==>
            w.state == if a.optionsReadable && a.resultCode != 0 then Error else v.state)
      && (a.kind != BindResponse ==> w.state == v.state)
  {
    BindHandled(v, i, a);
    OneAnswered(v, i, a);
    Resettled(v.queue, i, []);
  }

  lemma BindHandled(v: View, i: nat, a: Answer)
    requires i < |v.queue| && v.queue[i].onRead == BindOnRead && !Continues(v, a)
    ensures var u := Handled(v, i, a);
      && u == v.(state := u.state, queue := v.queue[i + 1..], history := u.history)
      && u.state ==
           if BindDone(v, a) then Bound
           else if a.kind == BindResponse && a.optionsReadable && a.resultCode != 0 then Error
           else v.state
  {
    OnBindEnds(Heard(v.(queue := v.queue[i + 1..]), v.queue[i], a), a);
  }

  lemma OnBindEnds(v: View, a: Answer)
    requires !Continues(v, a)
    ensures var u := OnBind(v, a);
      && u == v.(state := u.state, history := u.history)
      && u.state ==
           if BindDone(v, a) then Bound
           else if a.kind == BindResponse && a.optionsReadable && a.resultCode != 0 then Error
           else v.state
  {
    var called := CallsBind(v);
    assert called == v.(history := called.history);
  }

  /** The answer about the directory's root. */
  lemma AnsweredDirectory(v: View, i: nat, a: Answer)
    requires Ready(v, i, DirectoryOnRead) && (a.kind == SearchEntry || a.kind == SearchResult)
    ensures var w := Step(v, Reading(i, Answered(a)));
      && Settled(v, i, [], w)
      && w == v.(directoryType := w.directoryType, queue := w.queue, nRead := w.nRead, history := w.history)
      && (SaysActiveDirectory(a.attributes) ==> w.directoryType == ActiveDirectory)
      && (SaysOpenLdap(a.attributes) ==> w.directoryType == OpenLdap)
      && (AllSilent(a.attributes) ==>
            w.directoryType == if v.directoryType == Uninitialized then Unknown else v.directoryType)
  {
    DirectoryHandled(v, i, a);
    OneAnswered(v, i, a);
    Resettled(v.queue, i, []);
    DetectedType(a.attributes, v.directoryType);
  }

  lemma DirectoryHandled(v: View, i: nat, a: Answer)
    requires i < |v.queue| && v.queue[i].onRead == DirectoryOnRead && (a.kind == SearchEntry || a.kind == SearchResult)
    ensures var u := Handled(v, i, a); var found := Recognise(a.attributes, v.directoryType);
      && u == v.(directoryType := u.directoryType, queue := v.queue[i + 1..], history := u.history)
      && u.directoryType == if found == Uninitialized then Unknown else found
  {
  }

  /** The first record with the message id, which has a callback. */
  ghost predicate Finds(v: View, msgid: int, j: nat) {
    && j < |v.registry| && v.registry[j].msgid == msgid && v.registry[j].callback != NoCallback
    && forall k | 0 <= k < j :: v.registry[k].msgid != msgid
  }

  /** What the callback of a record may change: the table it is for, the path it is for, or, by calls
      of the application, the requests. */
  ghost predicate CallbackDoes(v: View, callback: Callback, a: Answer, w: View) {
    && w.state == v.state && w.directoryType == v.directoryType
    && w.attributeTypes == (if callback == AppendAttributeTypes then AppendAll(v.attributeTypes, a.definitions) else v.attributeTypes)
    && w.objectClasses == (if callback == AppendObjectClasses then AppendAll(v.objectClasses, a.definitions) else v.objectClasses)
    && w.schemaPathKnown == (v.schemaPathKnown || (callback == RememberSchemaPath && a.definitions != []))
  }

  /** The answer to a registered search: the record's callback runs on the entries of the answer. */
  lemma AnsweredSearch(v: View, i: nat, a: Answer, j: nat)
    requires Ready(v, i, SearchOnRead) && (a.kind == SearchEntry || a.kind == SearchResult) && Finds(v, v.queue[i].msgid, j)
    requires !Handled(v, i, a).overrun
    ensures var w := Step(v, Reading(i, Answered(a))); var record := v.registry[j];
      && Settled(v, i, if record.callback.User? then RequestsOf(a.calls) else [], w)
      && w.history.fired == v.history.fired + [Firing(record, a.entries)] && CallbackDoes(v, record.callback, a, w)
  {
    OneAnswered(v, i, a);
    SearchHandled(v, i, a, j);
    Resettled(v.queue, i, if v.registry[j].callback.User? then RequestsOf(a.calls) else []);
  }

  lemma SearchHandled(v: View, i: nat, a: Answer, j: nat)
    requires i < |v.queue| && v.queue[i].onRead == SearchOnRead && (a.kind == SearchEntry || a.kind == SearchResult)
    requires Finds(v, v.queue[i].msgid, j) && !Handled(v, i, a).overrun
    ensures var u := Handled(v, i, a); var record := v.registry[j];
      var more := if record.callback.User? then RequestsOf(a.calls) else [];
      && u.queue == v.queue[i + 1..] + more && u.nRead == v.nRead + |more| && SameSettings(v, u) && SameHandlers(v, u)
      && u.history.fired == v.history.fired + [Firing(record, a.entries)] && CallbackDoes(v, record.callback, a, u)
  {
    var heard := Heard(v.(queue := v.queue[i + 1..]), v.queue[i], a);
    assert FindRecord(heard.registry, v.queue[i].msgid) == Some(j);
    CallbackOutcome(heard, heard.registry[j], a);
    var w := RunCallback(heard, heard.registry[j], a);
    assert Handled(v, i, a) == w.(registry := RemoveRecord(w.registry, w.nRead, j));
  }

  lemma CallbackOutcome(v: View, record: SearchRecord, a: Answer)
    requires record.callback != NoCallback && !RunCallback(v, record, a).overrun
    ensures var u := RunCallback(v, record, a); var more := if record.callback.User? then RequestsOf(a.calls) else [];
      && u.queue == v.queue + more && u.nRead == v.nRead + |more| && SameSettings(v, u) && SameHandlers(v, u)
      && u.history.fired == v.history.fired + [Firing(record, a.entries)] && CallbackDoes(v, record.callback, a, u)
  {
    var fired := v.(history := Fire(v.history, record, a.entries));
    if record.callback.User? { CallsOutcome(fired, a.calls); } else { assert v.queue + [] == v.queue; }
  }

  /** Answers that reach the application: its operations, and whatever a search request gets that no
      record waits for. */
  ghost predicate ForApplication(v: View, r: Request, a: Answer) {
    match r.onRead
    case OperationOnRead => true
    case DirectoryOnRead => a.kind in {BindResponse, ExtendedResponse, OtherMessage}
    case SearchOnRead =>
      || a.kind in {BindResponse, ExtendedResponse, OtherMessage}
      || (a.kind in {SearchEntry, SearchResult} && !Waiting(v.registry, r.msgid))
    case _ => false
  }

  /** The calls the application's callback makes are queued in order, and its searches entered. */
  lemma AnsweredForApplication(v: View, i: nat, a: Answer)
    requires Window(v) && !v.overrun && v.listening && i < |v.queue| && ForApplication(v, v.queue[i], a)
    requires !Handled(v, i, a).overrun
    ensures var w := Step(v, Reading(i, Answered(a)));
      && Settled(v, i, RequestsOf(a.calls), w)
      && w == v.(queue := w.queue, nRead := w.nRead, registry := w.registry, history := w.history)
      && v.registry <= w.registry
      && (|v.registry| + |a.calls| < 8192 ==>
            forall k | 0 <= k < |a.calls| && a.calls[k].Search? :: Entered(a.calls[k], w.registry))
  {
    var u := ApplicationView(v, i, a);
    HandedOn(v, i, a);
    ApplicationViewIs(v, i, a);
    OneAnswered(v, i, a);
    CallsOutcome(u, a.calls);
    Resettled(v.queue, i, RequestsOf(a.calls));
    if |v.registry| + |a.calls| < 8192 {
      forall k | 0 <= k < |a.calls| && a.calls[k].Search? ensures Entered(a.calls[k], PerformAll(u, a.calls).registry) {
        CallsAreEntered(u, a.calls, k);
      }
    }
  }

  lemma HandedOn(v: View, i: nat, a: Answer)
    requires i < |v.queue| && ForApplication(v, v.queue[i], a)
    ensures Handled(v, i, a) == PerformAll(ApplicationView(v, i, a), a.calls)
  {
    if v.queue[i].onRead == SearchOnRead {
      var heard := Heard(v.(queue := v.queue[i + 1..]), v.queue[i], a);
      assert a.kind in {SearchEntry, SearchResult} ==> FindRecord(heard.registry, v.queue[i].msgid).None?;
    }
  }

  lemma ApplicationViewIs(v: View, i: nat, a: Answer)
    requires i < |v.queue|
    ensures var u := ApplicationView(v, i, a); u == v.(queue := v.queue[i + 1..], history := u.history)
  {
  }

  function ApplicationView(v: View, i: nat, a: Answer): View
    requires i < |v.queue|
  {
    var r := v.queue[i];
    var u := Heard(v.(queue := v.queue[i + 1..]), r, a);
    if r.onRead == SearchOnRead && a.kind != SearchEntry && a.kind != SearchResult then Blame(u, UnansweredSearch) else u
  }

  /** The first record with the message id has been cleared of its callback. */
  ghost predicate FindsCleared(v: View, msgid: int) {
    exists j | 0 <= j < |v.registry| ::
      && v.registry[j].msgid == msgid && v.registry[j].callback == NoCallback
      && forall k | 0 <= k < j :: v.registry[k].msgid != msgid
  }

  ghost predicate InVain(v: View, r: Request, a: Answer) {
    match r.onRead
    case NoHandler => true
    case DirectoryOnRead => a.kind == SearchReference
    case SearchOnRead => a.kind == SearchReference || (a.kind in {SearchEntry, SearchResult} && FindsCleared(v, r.msgid))
    case _ => false
  }

  /** A reference is not followed, and without a handler or a callback nothing is done. */
  lemma AnsweredInVain(v: View, i: nat, a: Answer)
    requires Window(v) && !v.overrun && v.listening && i < |v.queue| && InVain(v, v.queue[i], a)
    ensures var w := Step(v, Reading(i, Answered(a)));
      Settled(v, i, [], w) && w == v.(queue := w.queue, nRead := w.nRead, history := w.history)
  {
    HandledInVain(v, i, a);
    OneAnswered(v, i, a);
    Resettled(v.queue, i, []);
  }

  lemma HandledInVain(v: View, i: nat, a: Answer)
    requires i < |v.queue| && InVain(v, v.queue[i], a)
    ensures var u := Handled(v, i, a); u == v.(queue := v.queue[i + 1..], history := u.history)
  {
    var heard := Heard(v.(queue := v.queue[i + 1..]), v.queue[i], a);
    if v.queue[i].onRead == SearchOnRead && a.kind != SearchReference {
      assert FindRecord(heard.registry, v.queue[i].msgid).Some?;
    }
  }
}
