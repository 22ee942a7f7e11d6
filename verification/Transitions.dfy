/** The state machine told as a table: what each call of csm_next_state leads to, by the state it finds
    and the library's answers, and how a read event can move it. */
module Transitions {
  import opened SchemaTable
  import opened Model

  /* ---- Which state may follow which ---- */

  predicate MayFollow(state: State, next: State) {
    match state
    case Init => next == TransportReady || next == TlsNegotiation || next == Error
    case TlsNegotiation => next == TlsNegotiation
    case TransportReady => next == DetectDirectory || next == BindInProgress || next == TransportReady || next == Error
    case BindInProgress => next == BindInProgress
    case Bound => next == DetectDirectory
    case DetectDirectory => next == DetectDirectory || next == RequestSchema || next == Error
    case RequestSchema => next == CheckSchema || next == RequestSchema || next == Error
    case CheckSchema => next == CheckSchema || next == Running
    case Running => next == Running
    case Error => next == Init || next == Error
  }

  lemma TimerSteps(v: View, t: Tick)
    requires !v.overrun && v.nRead <= 8192
    ensures MayFollow(v.state, Step(v, Timer(t)).state)
  {
    match v.state
    case RequestSchema => SchemaSteps(v, t);
    case Error => ErrorSteps(v, t);
    case DetectDirectory => DetectSteps(v, t);
    case _ =>
  }

  lemma ErrorSteps(v: View, t: Tick)
    requires v.state == Error
    ensures StepError(v, t).state == Init || StepError(v, t).state == Error
  {
  }

  lemma DetectSteps(v: View, t: Tick)
    requires v.state == DetectDirectory
    ensures StepDetect(v, t).state == DetectDirectory || StepDetect(v, t).state == RequestSchema || StepDetect(v, t).state == Error
  {
  }

  lemma SchemaSteps(v: View, t: Tick)
    ensures StepSchema(v, t).state == CheckSchema || StepSchema(v, t).state == RequestSchema || StepSchema(v, t).state == Error
  {
  }

  lemma CallsKeepState(v: View, calls: seq<Call>)
    ensures PerformAll(v, calls).state == v.state
  {
    assert OnlyRequests(v, PerformAll(v, calls));
  }

  ghost predicate MovedByAnswer(before: State, after: State) {
    after == before || after in {TransportReady, Bound, Error}
  }

  lemma CallbackKeepsState(v: View, record: SearchRecord, a: Answer)
    ensures RunCallback(v, record, a).state == v.state
  {
    if record.callback.User? { CallsKeepState(v.(history := Fire(v.history, record, a.entries)), a.calls); }
  }

  lemma SearchKeepsState(v: View, msgid: int, a: Answer)
    ensures OnSearch(v, msgid, a).state == v.state
  {
    var i := FindRecord(v.registry, msgid);
    if i.Some? { CallbackKeepsState(v, v.registry[i.value], a); }
    CallsKeepState(v, a.calls);
    CallsKeepState(Blame(v, UnansweredSearch), a.calls);
  }

  lemma DeliverMoves(v: View, r: Request, a: Answer)
    ensures MovedByAnswer(v.state, Deliver(v, r, a).state)
  {
    var heard := Heard(v, r, a);
    match r.onRead
    case SearchOnRead => SearchKeepsState(heard, r.msgid, a);
    case DirectoryOnRead | OperationOnRead => CallsKeepState(heard, a.calls);
    case BindOnRead => BindMoves(heard, a);
    case StartTlsOnRead | NoHandler =>
  }

  lemma BindMoves(v: View, a: Answer)
    ensures MovedByAnswer(v.state, OnBind(v, a).state)
  {
  }

  lemma {:induction false} DrainMoves(d: Drain, script: seq<Reply>)
    requires d.v.nRead <= MAX_REQUESTS
    ensures MovedByAnswer(d.v.state, Drained(d, script).v.state)
    decreases MAX_REQUESTS - d.v.nRead + |d.v.queue|
  {
    if !Finished(d) {
      var e := DrainTurns(d, script);
      var reply := ReplyAt(script, |d.popped|);
      if reply.Answered? { DeliverMoves(d.v.(queue := d.v.queue[1..]), d.v.queue[0], reply.answer); }
      DrainMoves(e, script);
    }
  }

  /** A read event ends a handshake, well or badly, or leaves the state as it is. */
  lemma ReadSteps(v: View, script: seq<Reply>)
    requires v.nRead <= 8192
    ensures MovedByAnswer(v.state, Step(v, ReadEvent(script)).state)
  {
    DrainMoves(StartDrain(v), script);
  }

  /** RUN is entered from CHECK_SCHEMA only, and on OpenLDAP only with both tables filled. */
  lemma EntersRunning(v: View, a: Action)
    requires v.nRead <= 8192 && v.state != Running && Step(v, a).state == Running
    ensures a.Timer? && v.state == CheckSchema
    ensures v.directoryType == OpenLdap ==> v.attributeTypes.byOid.Keys != {} && v.objectClasses.byOid.Keys != {}
  {
    match a
    case Timer(t) => TimerSteps(v, t);
    case ReadEvent(script) => ReadSteps(v, script);
    case ApiCall(call) => CallsKeepState(v, [call]);
    case Break =>
  }

  /** Conversely CHECK_SCHEMA lasts no longer than it takes. */
  lemma LeavesCheckSchema(v: View, t: Tick)
    requires v.nRead <= 8192 && !v.overrun && v.state == CheckSchema
    ensures Step(v, Timer(t)) ==
      if v.directoryType == OpenLdap && (v.attributeTypes.byOid.Keys == {} || v.objectClasses.byOid.Keys == {})
      then v else v.(state := Running)
  {
  }

  /* ---- What the steps that make calls do ---- */

  ghost predicate Installs(v: View, t: Tick) { v.handlersInstalled || t.installs }

  /** The request has been sent and the handlers are in place. */
  ghost predicate SentOne(v: View, r: Request, next: State, w: View) {
    && w == v.(state := next, queue := v.queue + [r], nRead := v.nRead + 1, handlersInstalled := true,
               listening := v.listening || !v.handlersInstalled, history := w.history)
    && w.history == v.history.(issued := w.history.issued, faults := w.history.faults, asked := w.history.asked,
                              bareBind := w.history.bareBind)
  }

  lemma InitStep(v: View, t: Tick)
    requires v.state == Init && !v.overrun && v.nRead < 8192
    ensures var w := Step(v, Timer(t));
      && (!v.useStartTls ==> w == v.(state := TransportReady))
      && (v.useStartTls && t.tls.Sent? && Installs(v, t) ==> SentOne(v, Request(t.tls.msgid, StartTlsOnRead), TlsNegotiation, w))
      && (v.useStartTls && !(t.tls.Sent? && Installs(v, t)) ==> w == v.(state := Error))
  {
  }

  ghost predicate GoesOut(v: View, t: Tick) {
    (t.bind.BindSent? || (t.bind.BindContinues? && v.bindType == Interactive)) && Installs(v, t)
  }

  /** A bind that went out leads on to the directory, or waits for the mechanism to go on. */
  lemma BindStep(v: View, t: Tick)
    requires v.state == TransportReady && !v.overrun && v.nRead < 8192 && GoesOut(v, t)
    ensures var (w, rc) := NextState(v, t);
      && rc == (if t.bind.BindSent? then RcSuccess else RcInProgress)
      && SentOne(v, Request(t.bind.msgid, BindOnRead), if t.bind.BindSent? then DetectDirectory else BindInProgress, w)
  {
  }

  /** A connection still being made is tried again; anything else is an error. */
  lemma NoBindStep(v: View, t: Tick)
    requires v.state == TransportReady && !v.overrun && v.nRead <= 8192 && !GoesOut(v, t)
    ensures var (w, rc) := NextState(v, t);
      && (t.bind.Connecting? ==> rc == RcRepeat && w == v.(history := w.history))
      && (!t.bind.Connecting? ==> rc == RcFailure && w == v.(state := Error, history := w.history))
  {
  }

  /** Only that state's return code tells anything. */
  lemma OtherReturnCodes(v: View, t: Tick)
    requires v.state != TransportReady
    ensures NextState(v, t).1 == RcSuccess
  {
  }

  lemma DetectStep(v: View, t: Tick)
    requires v.state == DetectDirectory && !v.overrun && v.nRead < 8192
    ensures var w := Step(v, Timer(t));
      && (v.directoryType != Uninitialized ==> w == v.(state := RequestSchema))
      && (v.directoryType == Uninitialized && t.directory.Sent? ==>
            w == v.(queue := v.queue + [Request(t.directory.msgid, DirectoryOnRead)], nRead := v.nRead + 1, history := w.history))
      && (v.directoryType == Uninitialized && t.directory.NotSent? ==> w == v.(state := Error))
  {
  }

  /** The states that wait, the one after a bind, and RUN, which forgets the attempts. */
  lemma QuietStep(v: View, t: Tick)
    requires v.nRead <= 8192 && !v.overrun
    ensures var w := Step(v, Timer(t));
      && (v.state == TlsNegotiation || v.state == BindInProgress ==> w == v)
      && (v.state == Bound ==> w == v.(state := DetectDirectory))
      && (v.state == Running ==> w == v.(reconnectAttempts := 0, resets := v.resets + 1))
  {
  }

  /* ---- Loading the schema ---- */

  /** The searches that have been sent, each with its record, and nothing else. */
  ghost predicate Searched(v: View, requests: seq<Request>, records: seq<SearchRecord>, next: State, w: View) {
    && w == v.(state := next, queue := v.queue + requests, nRead := v.nRead + |requests|, registry := v.registry + records,
               history := w.history)
    && w.history.fired == v.history.fired
  }

  function SearchRequest(msgid: int): Request { Request(msgid, SearchOnRead) }

  function SchemaRecord(msgid: int, callback: Callback): SearchRecord { SearchRecord(msgid, callback, SCHEMA_DATA) }

  ghost predicate SearchesTables(v: View) {
    v.directoryType == OpenLdap || (v.directoryType == ActiveDirectory && v.schemaPathKnown)
  }

  /** Both tables are asked for, attribute types first, and then the machine goes on. */
  lemma TablesStep(v: View, t: Tick)
    requires v.state == RequestSchema && !v.overrun && v.nRead + 2 <= 8192 && |v.registry| + 2 < 8192 && SearchesTables(v)
    requires t.firstSearch.Sent? && t.secondSearch.Sent?
    ensures var (first, second) := (t.firstSearch.msgid, t.secondSearch.msgid);
      Searched(v, [SearchRequest(first), SearchRequest(second)],
               [SchemaRecord(first, AppendAttributeTypes), SchemaRecord(second, AppendObjectClasses)],
               CheckSchema, Step(v, Timer(t)))
  {
    TablesLoaded(v, t);
    assert Step(v, Timer(t)) == LoadTables(v, t).0.(state := CheckSchema);
  }

  /** A search that is refused is an error, and the other one is not undone. */
  lemma RefusedTablesStep(v: View, t: Tick)
    requires v.state == RequestSchema && !v.overrun && v.nRead < 8192 && |v.registry| + 1 < 8192 && SearchesTables(v)
    requires t.firstSearch.NotSent? || t.secondSearch.NotSent?
    ensures var w := Step(v, Timer(t)); var first := t.firstSearch;
      && (first.Sent? ==>
            Searched(v, [SearchRequest(first.msgid)], [SchemaRecord(first.msgid, AppendAttributeTypes)], Error, w))
      && (first.NotSent? ==> w == v.(state := Error))
  {
    if t.firstSearch.Sent? { var u := AfterSearch(v, t.firstSearch.msgid, AppendAttributeTypes); }
  }

  lemma TablesLoaded(v: View, t: Tick)
    requires v.nRead + 2 <= 8192 && |v.registry| + 2 < 8192 && t.firstSearch.Sent? && t.secondSearch.Sent?
    ensures var (w, rc) := LoadTables(v, t); var (first, second) := (t.firstSearch.msgid, t.secondSearch.msgid);
      && rc == RcSuccess
      && Searched(v, [SearchRequest(first), SearchRequest(second)],
                  [SchemaRecord(first, AppendAttributeTypes), SchemaRecord(second, AppendObjectClasses)], v.state, w)
  {
    var w := AfterBoth(v, t.firstSearch.msgid, t.secondSearch.msgid);
  }

  lemma AfterBoth(v: View, first: int, second: int) returns (w: View)
    requires v.nRead + 2 <= 8192 && |v.registry| + 2 < 8192
    ensures SchemaSearch(SchemaSearch(v, Sent(first), AppendAttributeTypes).0, Sent(second), AppendObjectClasses) == (w, true)
    ensures SchemaSearch(v, Sent(first), AppendAttributeTypes).1 && w.overrun == v.overrun
    ensures Searched(v, [SearchRequest(first), SearchRequest(second)],
                     [SchemaRecord(first, AppendAttributeTypes), SchemaRecord(second, AppendObjectClasses)], v.state, w)
  {
    var u := AfterSearch(v, first, AppendAttributeTypes);
    w := AfterSearch(u, second, AppendObjectClasses);
    Paired(v.queue, SearchRequest(first), SearchRequest(second));
    Paired(v.registry, SchemaRecord(first, AppendAttributeTypes), SchemaRecord(second, AppendObjectClasses));
  }

  lemma Paired<T>(s: seq<T>, a: T, b: T)
    ensures s + [a] + [b] == s + [a, b]
  {
  }

  lemma AfterSearch(v: View, msgid: int, callback: Callback) returns (w: View)
    requires v.nRead < 8192 && |v.registry| + 1 < 8192 && callback != NoCallback
    ensures SchemaSearch(v, Sent(msgid), callback) == (w, true)
    ensures Searched(v, [SearchRequest(msgid)], [SchemaRecord(msgid, callback)], v.state, w)
    ensures w.overrun == v.overrun
  {
    w := SchemaSearch(v, Sent(msgid), callback).0;
  }

  /** Active Directory is first asked where its schema is, until the answer has come. */
  lemma PathStep(v: View, t: Tick)
    requires v.state == RequestSchema && !v.overrun && v.nRead < 8192 && |v.registry| + 1 < 8192
    requires v.directoryType == ActiveDirectory && !v.schemaPathKnown
    ensures var w := Step(v, Timer(t));
      && (t.firstSearch.Sent? ==>
            Searched(v, [SearchRequest(t.firstSearch.msgid)], [SchemaRecord(t.firstSearch.msgid, RememberSchemaPath)],
                     RequestSchema, w))
      && (t.firstSearch.NotSent? ==> w == v.(state := Error))
  {
    if t.firstSearch.Sent? { var w := AfterSearch(v, t.firstSearch.msgid, RememberSchemaPath); }
  }

  lemma NoSchemaStep(v: View, t: Tick)
    requires v.state == RequestSchema && !v.overrun && v.nRead <= 8192
    ensures var w := Step(v, Timer(t));
      && (v.directoryType == FreeIpa ==> w == v.(state := Error))
      && (v.directoryType == Unknown || v.directoryType == Uninitialized ==> w == v.(state := CheckSchema))
  {
  }

  /** A registry without room is an error, though the request is out. */
  lemma FullRegistryStep(v: View, t: Tick)
    requires v.state == RequestSchema && !v.overrun && v.nRead + 2 <= 8192 && |v.registry| + 2 >= 8192
    requires t.firstSearch.Sent? && t.secondSearch.Sent? && SearchesTables(v)
    ensures Step(v, Timer(t)).state == Error
  {
    assert LoadTables(v, t).1 == RcFailure && !LoadTables(v, t).0.overrun;
  }

  /* ---- Reconnecting ---- */

  ghost predicate EmptyTable(t: Table) {
    (forall oid :: oid !in t.byOid) && (forall name :: name !in t.byName)
  }

  /** A configure that completes forgets everything but the settings and the path of the schema. */
  lemma ConfiguredAnew(v: View, t: Tick)
    requires v.state == Error && !v.overrun && v.nRead <= 8192 && v.reconnectAttempts < 10 && t.configure == Completed
    ensures var w := Step(v, Timer(t));
      && w.state == Init && w.directoryType == Uninitialized && EmptyTable(w.attributeTypes) && EmptyTable(w.objectClasses)
      && w.queue == [] && w.nRead == 0 && w.registry == [] && w.reconnectAttempts == 1
      && !w.handlersInstalled && !w.listening && !w.overrun && w.schemaPathKnown == v.schemaPathKnown
      && w.useStartTls == v.useStartTls && w.bindType == v.bindType && w.reconnects == v.reconnects + 1
  {
  }

  /** One that does not leaves the requests, the registry, the tables and the type as they were. */
  lemma ConfiguredInVain(v: View, t: Tick)
    requires v.state == Error && !v.overrun && v.nRead <= 8192 && v.reconnectAttempts < 10 && t.configure != Completed
    ensures var w := Step(v, Timer(t));
      w == v.(state := Init, reconnectAttempts := v.reconnectAttempts + 1, reconnects := v.reconnects + 1, listening := false,
              handlersInstalled := v.handlersInstalled && t.configure == Unreachable, history := w.history)
  {
  }

  lemma GivenUp(v: View, t: Tick)
    requires v.state == Error && !v.overrun && v.nRead <= 8192 && v.reconnectAttempts >= 10
    ensures Step(v, Timer(t)) == v.(listening := false)
  {
  }
}
