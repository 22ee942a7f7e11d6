/** What the invariants mean for whole runs of a connection, and where a guarantee stops. */
module Guarantees {
  import opened SchemaTable
  import opened Model
  import opened Invariants
  import opened Transitions

  /* ---- StartTLS before bind ---- */

  /** In every reachable state: no bind call has been made without a successful handshake since INIT
      was last entered, unless an incomplete configure left an interactive bind request queued and,
      besides, libldap or the server has not kept to the protocol. */
  lemma StartTlsBeforeBind(bindType: BindType, actions: seq<Action>)
    requires !Run(Configured(true, bindType), actions).overrun
    ensures var h := Run(Configured(true, bindType), actions).history;
      h.bareBind ==> KeptBind in h.faults && !Conforming(h)
  {
    RunGood(true, bindType, actions);
  }

  predicate Configures(a: Action, outcome: ConfigureOutcome) { a.Timer? && a.tick.configure == outcome }

  /** The marks of failed reconfigurations need reconfigurations that fail. */
  lemma {:induction false} MarksNeedFailures(useStartTls: bool, bindType: BindType, actions: seq<Action>)
    ensures var faults := Run(Configured(useStartTls, bindType), actions).history.faults;
      && ((forall a | a in actions :: !Configures(a, Incomplete)) ==> KeptBind !in faults)
      && ((forall a | a in actions :: !Configures(a, Incomplete) && !Configures(a, Unreachable)) ==> KeptHandshake !in faults)
    decreases |actions|
  {
    if actions != [] {
      var n := |actions| - 1;
      MarksNeedFailures(useStartTls, bindType, actions[..n]);
      MarkMade(Run(Configured(useStartTls, bindType), actions[..n]), actions[n]);
      assert forall a | a in actions[..n] :: a in actions;
    }
  }

  lemma MarkMade(v: View, a: Action)
    requires Window(v)
    ensures var faults := Step(v, a).history.faults;
      && (KeptBind in faults && KeptBind !in v.history.faults ==> Configures(a, Incomplete))
      && (KeptHandshake in faults && KeptHandshake !in v.history.faults ==>
            Configures(a, Incomplete) || Configures(a, Unreachable))
  {
    StepKeepsMarks(v, a);
  }

  /** In terms of what happens: StartTLS comes before any bind if no configure is left incomplete, and
      one bind at most is in flight if no configure fails. */
  lemma GuaranteesStand(useStartTls: bool, bindType: BindType, actions: seq<Action>)
    requires !Run(Configured(useStartTls, bindType), actions).overrun
    ensures useStartTls && (forall a | a in actions :: !Configures(a, Incomplete)) ==>
      !Run(Configured(useStartTls, bindType), actions).history.bareBind
    ensures (forall a | a in actions :: !Configures(a, Incomplete) && !Configures(a, Unreachable)) ==>
      Handshakes(Run(Configured(useStartTls, bindType), actions).queue) <= 1
  {
    MarksNeedFailures(useStartTls, bindType, actions);
    RunGood(useStartTls, bindType, actions);
  }

  /* ---- One bind at a time ---- */

  /** In every reachable state at most one bind request is live, unless some configure failed before
      its resets while a TLS or bind request was queued. */
  lemma OneBindInFlight(useStartTls: bool, bindType: BindType, actions: seq<Action>, i: nat, j: nat)
    requires !Run(Configured(useStartTls, bindType), actions).overrun
    requires KeptHandshake !in Run(Configured(useStartTls, bindType), actions).history.faults
    requires var q := Run(Configured(useStartTls, bindType), actions).queue;
      i < |q| && j < |q| && q[i].onRead == BindOnRead && q[j].onRead == BindOnRead
    ensures i == j
  {
    var q := Run(Configured(useStartTls, bindType), actions).queue;
    RunGood(useStartTls, bindType, actions);
    if i < j { TwoHandshakes(q, i, j); }
    if j < i { TwoHandshakes(q, j, i); }
  }

  lemma TwoHandshakes(q: seq<Request>, i: nat, j: nat)
    requires i < j < |q| && IsHandshake(q[i]) && IsHandshake(q[j])
    ensures Handshakes(q) >= 2
  {
    assert q == q[..i] + [q[i]] + q[i + 1..j] + [q[j]] + q[j + 1..];
    HandshakesAppend(q[..i] + [q[i]] + q[i + 1..j] + [q[j]], q[j + 1..]);
    HandshakesAppend(q[..i] + [q[i]] + q[i + 1..j], [q[j]]);
    HandshakesAppend(q[..i] + [q[i]], q[i + 1..j]);
    HandshakesAppend(q[..i], [q[i]]);
    OneRequest(q[i]);
    OneRequest(q[j]);
  }

  /* ---- Searches ---- */

  /** Since the last reset, if no id was reused and no search request was dropped, lost or answered
      with something else: each search entered in the registry has either called back once, with
      the record it was entered with, or is still registered and has a live request. */
  lemma EachSearchFiresOnce(useStartTls: bool, bindType: BindType, actions: seq<Action>)
    requires !Run(Configured(useStartTls, bindType), actions).overrun
    requires Orderly(Run(Configured(useStartTls, bindType), actions).history)
    ensures var w := Run(Configured(useStartTls, bindType), actions); var h := w.history;
      && (forall i, j | 0 <= i < j < |h.fired| :: h.fired[i].record.msgid != h.fired[j].record.msgid)
      && (forall k | 0 <= k < |h.fired| ::
            h.fired[k].record.msgid in h.registered && h.registered[h.fired[k].record.msgid] == h.fired[k].record)
      && (forall id | id in h.registered :: Called(h.fired, id) <==> !Waiting(w.registry, id))
      && (forall k | 0 <= k < |w.registry| :: Request(w.registry[k].msgid, SearchOnRead) in w.queue)
      && |w.registry| <= |w.queue| <= w.nRead
  {
    RunGood(useStartTls, bindType, actions);
    var w := Run(Configured(useStartTls, bindType), actions);
    RegistryFits(w.registry, w.queue);
  }

  /** The answer to a registered search runs that search's own callback, and afterwards exactly its
      record is gone from the registry. */
  lemma AnsweredSearchFires(v: View, r: Request, extra: seq<Request>, a: Answer)
    requires Good(v, [r] + (extra + v.queue)) && Orderly(v.history) && r.onRead == SearchOnRead
    requires r.msgid in v.history.registered && !Called(v.history.fired, r.msgid)
    requires a.kind == SearchEntry || a.kind == SearchResult
    requires !OnSearch(v, r.msgid, a).overrun && Orderly(OnSearch(v, r.msgid, a).history)
    ensures var w := OnSearch(v, r.msgid, a); var i := FindRecord(v.registry, r.msgid);
      && w.history.fired == v.history.fired + [Firing(v.history.registered[r.msgid], a.entries)]
      && i.Some? && Without(v.registry, i.value) <= w.registry
  {
    var i := FindRecord(v.registry, r.msgid).value;
    assert Waiting(v.registry, r.msgid);
    CallbackFires(v, v.registry[i], a);
    RemovalAfterCallback(v, r, extra, i, a);
  }

  lemma CallbackFires(v: View, record: SearchRecord, a: Answer)
    requires record.callback != NoCallback
    ensures RunCallback(v, record, a).history.fired == v.history.fired + [Firing(record, a.entries)]
  {
    var fired := v.(history := Fire(v.history, record, a.entries));
    if record.callback.User? { assert OnlyRequests(fired, PerformAll(fired, a.calls)); }
  }

  lemma RemovalAfterCallback(v: View, r: Request, extra: seq<Request>, i: nat, a: Answer)
    requires Good(v, [r] + (extra + v.queue)) && i < |v.registry| && v.registry[i].callback != NoCallback
    requires var w := RunCallback(v, v.registry[i], a); !w.overrun && Orderly(w.history)
    ensures var w := RunCallback(v, v.registry[i], a);
      RemoveRecord(w.registry, w.nRead, i) == Without(w.registry, i) && Without(v.registry, i) <= Without(w.registry, i)
  {
    Regroup(r, extra, v.queue);
    RunCallbackGood(v, [r] + (extra + v.queue), [r] + extra, i, a);
    var w := RunCallback(v, v.registry[i], a);
    RemovalIsExact(w, [r] + extra + w.queue, {v.registry[i].msgid}, i);
    WithoutPrefix(v.registry, w.registry, i);
  }

  lemma WithoutPrefix(before: seq<SearchRecord>, after: seq<SearchRecord>, i: nat)
    requires before <= after && i < |before|
    ensures Without(before, i) <= Without(after, i)
  {
    assert after == before + after[|before|..];
  }

  /* ---- Directory type and schema ---- */

  /** The schema states are reached only with a known directory type. */
  lemma DirectoryKnownInLaterStates(useStartTls: bool, bindType: BindType, actions: seq<Action>)
    requires !Run(Configured(useStartTls, bindType), actions).overrun
    requires Run(Configured(useStartTls, bindType), actions).state in {RequestSchema, CheckSchema, Running}
    ensures Run(Configured(useStartTls, bindType), actions).directoryType != Uninitialized
  {
    RunGood(useStartTls, bindType, actions);
  }

  ghost predicate SchemaGrows(v: View, w: View) {
    && v.attributeTypes.byOid.Keys <= w.attributeTypes.byOid.Keys
    && v.objectClasses.byOid.Keys <= w.objectClasses.byOid.Keys
  }

  predicate SameSchema(v: View, w: View) {
    w.attributeTypes == v.attributeTypes && w.objectClasses == v.objectClasses
  }

  lemma CallsKeepSchema(v: View, calls: seq<Call>)
    ensures SameSchema(v, PerformAll(v, calls))
  {
    assert OnlyRequests(v, PerformAll(v, calls));
  }

  lemma CallbackSchemaGrows(v: View, record: SearchRecord, a: Answer)
    ensures SchemaGrows(v, RunCallback(v, record, a))
  {
    var w := RunCallback(v, record, a);
    match record.callback
    case AppendAttributeTypes =>
      AppendAllGrows(v.attributeTypes, a.definitions);
      assert w.objectClasses == v.objectClasses;
    case AppendObjectClasses =>
      AppendAllGrows(v.objectClasses, a.definitions);
      assert w.attributeTypes == v.attributeTypes;
    case User(_) => CallsKeepSchema(v.(history := Fire(v.history, record, a.entries)), a.calls);
    case NoCallback | PrintEntries | RememberSchemaPath => assert SameSchema(v, w);
  }

  lemma SearchSchemaGrows(v: View, msgid: int, a: Answer)
    ensures SchemaGrows(v, OnSearch(v, msgid, a))
  {
    var i := FindRecord(v.registry, msgid);
    if i.Some? { CallbackSchemaGrows(v, v.registry[i.value], a); }
    CallsKeepSchema(v, a.calls);
    CallsKeepSchema(Blame(v, UnansweredSearch), a.calls);
  }

  lemma BindKeepsSchema(v: View, a: Answer)
    ensures SameSchema(v, OnBind(v, a))
  {
    SaslStepKeepsSchema(CallsBind(v), a);
  }

  lemma SaslStepKeepsSchema(v: View, a: Answer)
    ensures SameSchema(v, OnSaslStep(v, a))
  {
    if a.sasl.SaslInProgress? { assert OnlyRequests(v, Enqueue(v, Request(a.sasl.msgid, BindOnRead))); }
  }

  lemma DirectoryKeepsSchema(v: View, a: Answer)
    ensures SameSchema(v, OnDirectory(v, a))
  {
    CallsKeepSchema(v, a.calls);
  }

  lemma DispatchSchemaGrows(v: View, r: Request, a: Answer)
    ensures SchemaGrows(v, Dispatch(v, r, a))
  {
    match r.onRead
    case SearchOnRead => SearchSchemaGrows(v, r.msgid, a);
    case DirectoryOnRead => DirectoryKeepsSchema(v, a);
    case OperationOnRead => CallsKeepSchema(v, a.calls);
    case BindOnRead => BindKeepsSchema(v, a);
    case StartTlsOnRead | NoHandler =>
  }

  lemma AnswerSchemaGrows(v: View, r: Request, a: Answer)
    ensures SchemaGrows(v, Deliver(v, r, a))
  {
    DispatchSchemaGrows(Heard(v, r, a), r, a);
  }

  lemma TurnSchemaGrows(d: Drain, reply: Reply)
    requires d.v.queue != []
    ensures SchemaGrows(d.v, DrainStep(d, reply).v)
  {
    var v := d.v.(queue := d.v.queue[1..]);
    match reply
    case Answered(a) => AnswerSchemaGrows(v, d.v.queue[0], a);
    case NotYet =>
    case Failed(_, _) => assert SameSchema(v, DrainStep(d, reply).v);
  }

  lemma {:induction false} DrainedSchemaGrows(d: Drain, script: seq<Reply>)
    requires d.v.nRead <= MAX_REQUESTS
    ensures SchemaGrows(d.v, Drained(d, script).v)
    decreases MAX_REQUESTS - d.v.nRead + |d.v.queue|
  {
    if !Finished(d) {
      var e := DrainTurns(d, script);
      TurnSchemaGrows(d, ReplyAt(script, |d.popped|));
      DrainedSchemaGrows(e, script);
    }
  }

  lemma {:induction false} SchemaGrowsUntilReconnect(v: View, actions: seq<Action>)
    requires Window(v)
    ensures var w := Run(v, actions);
      v.reconnects <= w.reconnects && (v.reconnects == w.reconnects ==> SchemaGrows(v, w))
    decreases |actions|
  {
    if actions != [] {
      var u := Run(v, actions[..|actions| - 1]);
      SchemaGrowsUntilReconnect(v, actions[..|actions| - 1]);
      StepSchemaGrows(u, actions[|actions| - 1]);
    }
  }

  lemma StepSchemaGrows(v: View, a: Action)
    requires Window(v)
    ensures var w := Step(v, a);
      v.reconnects <= w.reconnects && (v.reconnects == w.reconnects ==> SchemaGrows(v, w))
  {
    match a
    case ReadEvent(script) => DrainedSchemaGrows(StartDrain(v), script);
    case Timer(tick) => if v.state != Error && v.state != Running { TickAdvances(v, tick); }
    case _ =>
  }

  /** From the step that enters RUN on OpenLDAP, whatever step that is, until the next reconnection
      both tables stay non-empty. */
  lemma LoadedWhileRunning(v: View, a: Action, actions: seq<Action>)
    requires Window(v) && v.state != Running && Step(v, a).state == Running && v.directoryType == OpenLdap
    requires Run(Step(v, a), actions).reconnects == v.reconnects
    ensures var w := Run(Step(v, a), actions); |w.attributeTypes.byOid| > 0 && |w.objectClasses.byOid| > 0
  {
    EntersRunning(v, a);
    var u := Step(v, a);
    assert u == v.(state := Running);
    var w := Run(u, actions);
    SchemaGrowsUntilReconnect(u, actions);
    var x :| x in v.attributeTypes.byOid.Keys;
    var y :| y in v.objectClasses.byOid.Keys;
    assert x in w.attributeTypes.byOid && y in w.objectClasses.byOid;
  }

  /* ---- Reconnecting ---- */

  lemma StepPotential(v: View, a: Action)
    requires Window(v) && AttemptsBounded(v)
    ensures var w := Step(v, a);
      && AttemptsBounded(w) && v.resets <= w.resets
      && (v.resets == w.resets ==> w.reconnects - v.reconnects == w.reconnectAttempts - v.reconnectAttempts)
  {
    if a.Timer? { TickPotential(v, a.tick); }
  }

  lemma TickPotential(v: View, t: Tick)
    requires AttemptsBounded(v)
    ensures var w := NextState(v, t).0;
      && AttemptsBounded(w) && v.resets <= w.resets
      && (v.resets == w.resets ==> w.reconnects - v.reconnects == w.reconnectAttempts - v.reconnectAttempts)
  {
    if v.state == Error {
      ReconnectCounts(v, t);
    } else if v.state != Running {
      TickAdvances(v, t);
    }
  }

  lemma ReconnectCounts(v: View, t: Tick)
    requires AttemptsBounded(v)
    ensures var w := StepError(v, t);
      && AttemptsBounded(w) && v.resets <= w.resets
      && (v.resets == w.resets ==> w.reconnects - v.reconnects == w.reconnectAttempts - v.reconnectAttempts)
  {
    var closed := v.(listening := false);
    if v.reconnectAttempts < MAX_RECONNECT_ATTEMPTS && t.configure != Completed {
      var kept := KeepsRequests(closed, t.configure == Incomplete);
      assert kept.reconnects == v.reconnects && kept.resets == v.resets;
    }
  }

  /** While the attempt counter is not zeroed it counts the ERROR-to-INIT steps exactly, so a stretch
      without a reset holds at most ten of them. */
  lemma {:induction false} ReconnectPotential(v: View, actions: seq<Action>)
    requires Window(v) && AttemptsBounded(v)
    ensures var w := Run(v, actions);
      && AttemptsBounded(w) && v.resets <= w.resets
      && (v.resets == w.resets ==>
            && w.reconnects - v.reconnects == w.reconnectAttempts - v.reconnectAttempts
            && w.reconnects - v.reconnects <= MAX_RECONNECT_ATTEMPTS)
    decreases |actions|
  {
    if actions != [] {
      ReconnectPotential(v, actions[..|actions| - 1]);
      StepPotential(Run(v, actions[..|actions| - 1]), actions[|actions| - 1]);
    }
  }

  /** The library refuses every call, but configuring succeeds. */
  const REFUSED := Timer(Tick(NotSent, BindRefused, true, NotSent, NotSent, NotSent, Completed))

  /** The limit is not global: because a successful configure zeroes the counter, a connection that
      keeps failing reconnects any number of times and its counter never exceeds one. */
  lemma {:induction false} ReconnectsUnbounded(useStartTls: bool, bindType: BindType, n: nat) returns (actions: seq<Action>)
    ensures var w := Run(Configured(useStartTls, bindType), actions);
      !w.overrun && w.reconnects == n && w.reconnectAttempts <= 1 && w.state == Init
  {
    if n == 0 {
      actions := [];
    } else {
      var before := ReconnectsUnbounded(useStartTls, bindType, n - 1);
      var c := Configured(useStartTls, bindType);
      var v := Fails(Run(c, before));
      ReconnectsOnce(v);
      RunEnds(c, before, REFUSED);
      actions := before + [REFUSED];
      if !useStartTls {
        RunEnds(c, actions, REFUSED);
        actions := actions + [REFUSED];
      }
      RunEnds(c, actions, REFUSED);
      actions := actions + [REFUSED];
    }
  }

  /** StartTLS is refused, or else the bind. */
  lemma Fails(v: View) returns (w: View)
    requires v.state == Init && Window(v) && !v.overrun
    ensures w == if v.useStartTls then Step(v, REFUSED) else Step(Step(v, REFUSED), REFUSED)
    ensures w.state == Error && Window(w) && !w.overrun && w.reconnects == v.reconnects
    ensures w.reconnectAttempts == v.reconnectAttempts
  {
    w := if v.useStartTls then Step(v, REFUSED) else Step(Step(v, REFUSED), REFUSED);
  }

  lemma ReconnectsOnce(v: View)
    requires v.state == Error && Window(v) && !v.overrun && v.reconnectAttempts <= 1
    ensures var w := Step(v, REFUSED);
      w.state == Init && !w.overrun && w.reconnects == v.reconnects + 1 && w.reconnectAttempts == 1
  {
  }
}
