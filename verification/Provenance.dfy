/** Where the search records of a run come from. */
module Provenance {
  import opened Model
  import opened Invariants
  import opened Outcomes

  /** The action makes this call: the application itself, one of its callbacks in a read event, or the
      library when it loads a schema. */
  ghost predicate Makes(a: Action, call: Call) {
    match a
    case ApiCall(made) => call == made
    case ReadEvent(script) => exists k | 0 <= k < |script| :: script[k].Answered? && call in script[k].answer.calls
    case Timer(t) =>
      || SchemaCall(t.firstSearch, {AppendAttributeTypes, RememberSchemaPath}, call)
      || SchemaCall(t.secondSearch, {AppendObjectClasses}, call)
    case Break => false
  }

  ghost predicate SchemaCall(outcome: SendOutcome, callbacks: set<Callback>, call: Call) {
    outcome.Sent? && call.Search? && call.msgid == outcome.msgid && call.callback in callbacks && call.userData == SCHEMA_DATA
  }

  /** What one of these calls asks for: its id, its user data, and its callback or the one that prints. */
  ghost predicate AskedFor(calls: iset<Call>, record: SearchRecord) { exists call | call in calls :: RecordOf(call, record) }

  ghost predicate Sourced(v: View, calls: iset<Call>) {
    && (forall k | 0 <= k < |v.registry| :: v.registry[k] == SearchRecord(0, NoCallback, 0) || AskedFor(calls, v.registry[k]))
    && (forall k | 0 <= k < |v.history.fired| :: AskedFor(calls, v.history.fired[k].record))
  }

  lemma PerformSourced(v: View, calls: iset<Call>, call: Call)
    requires Sourced(v, calls) && call in calls
    ensures Sourced(Perform(v, call), calls)
  {
    if call.Search? {
      var record := SearchRecord(call.msgid, CallbackOf(call.callback), call.userData);
      assert RecordOf(call, record) && AskedFor(calls, record);
    }
  }

  lemma {:induction false} PerformAllSourced(v: View, calls: iset<Call>, made: seq<Call>)
    requires Sourced(v, calls) && forall call | call in made :: call in calls
    ensures Sourced(PerformAll(v, made), calls)
    decreases |made|
  {
    if made != [] {
      PerformSourced(v, calls, made[0]);
      PerformAllSourced(Perform(v, made[0]), calls, made[1..]);
    }
  }

  lemma FiredSourced(v: View, calls: iset<Call>, i: nat, entries: seq<int>)
    requires Sourced(v, calls) && i < |v.registry| && v.registry[i].callback != NoCallback
    ensures Sourced(v.(history := Fire(v.history, v.registry[i], entries)), calls)
  {
  }

  lemma CallbackSourced(v: View, calls: iset<Call>, i: nat, a: Answer)
    requires Sourced(v, calls) && i < |v.registry| && v.registry[i].callback != NoCallback
    requires forall call | call in a.calls :: call in calls
    ensures Sourced(RunCallback(v, v.registry[i], a), calls)
  {
    FiredSourced(v, calls, i, a.entries);
    if v.registry[i].callback.User? {
      PerformAllSourced(v.(history := Fire(v.history, v.registry[i], a.entries)), calls, a.calls);
    }
  }

  lemma RemovedSourced(v: View, calls: iset<Call>, i: nat)
    requires Sourced(v, calls) && i < |v.registry|
    ensures Sourced(v.(registry := RemoveRecord(v.registry, v.nRead, i)), calls)
  {
    var after := RemoveRecord(v.registry, v.nRead, i);
    forall k | 0 <= k < |after|
      ensures after[k] == SearchRecord(0, NoCallback, 0) || AskedFor(calls, after[k])
    {
      assert after[k] == CLEARED_RECORD || after[k] == v.registry[k] || after[k] == v.registry[k + 1];
    }
  }

  lemma SearchSourced(v: View, calls: iset<Call>, msgid: int, a: Answer)
    requires Sourced(v, calls) && forall call | call in a.calls :: call in calls
    ensures Sourced(OnSearch(v, msgid, a), calls)
  {
    PerformAllSourced(v, calls, a.calls);
    PerformAllSourced(Blame(v, UnansweredSearch), calls, a.calls);
    var found := FindRecord(v.registry, msgid);
    if found.Some? && v.registry[found.value].callback != NoCallback {
      CallbackSourced(v, calls, found.value, a);
      RemovedSourced(RunCallback(v, v.registry[found.value], a), calls, found.value);
    }
  }

  /** Whatever keeps the registry and what has fired. */
  lemma SameSourced(v: View, w: View, calls: iset<Call>)
    requires Sourced(v, calls) && SameRecords(v, w)
    ensures Sourced(w, calls)
  {
  }

  lemma DeliverSourced(v: View, calls: iset<Call>, r: Request, a: Answer)
    requires Sourced(v, calls) && forall call | call in a.calls :: call in calls
    ensures Sourced(Deliver(v, r, a), calls)
  {
    var heard := Heard(v, r, a);
    SameSourced(v, heard, calls);
    match r.onRead
    case SearchOnRead => SearchSourced(heard, calls, r.msgid, a);
    case DirectoryOnRead => DirectorySourced(heard, calls, a);
    case OperationOnRead => PerformAllSourced(heard, calls, a.calls);
    case BindOnRead =>
      BindKeepsRecords(heard, a);
      SameSourced(heard, OnBind(heard, a), calls);
    case StartTlsOnRead => SameSourced(heard, OnTls(heard, a), calls);
    case NoHandler =>
  }

  lemma DirectorySourced(v: View, calls: iset<Call>, a: Answer)
    requires Sourced(v, calls) && forall call | call in a.calls :: call in calls
    ensures Sourced(OnDirectory(v, a), calls)
  {
    PerformAllSourced(v, calls, a.calls);
    if a.kind == SearchEntry || a.kind == SearchResult { SameSourced(v, OnDirectory(v, a), calls); }
  }

  lemma BindKeepsRecords(v: View, a: Answer)
    ensures SameRecords(v, OnBind(v, a))
  {
    SaslStepKeepsRecords(CallsBind(v), a);
  }

  lemma SaslStepKeepsRecords(v: View, a: Answer)
    ensures SameRecords(v, OnSaslStep(v, a))
  {
  }

  lemma {:induction false} DrainedSourced(d: Drain, calls: iset<Call>, script: seq<Reply>)
    requires d.v.nRead <= MAX_REQUESTS && Sourced(d.v, calls)
    requires forall k | 0 <= k < |script| && script[k].Answered? :: forall call | call in script[k].answer.calls :: call in calls
    ensures Sourced(Drained(d, script).v, calls)
    decreases MAX_REQUESTS - d.v.nRead + |d.v.queue|
  {
    if !Finished(d) {
      var e := DrainTurns(d, script);
      TurnSourced(d, calls, ReplyAt(script, |d.popped|));
      DrainedSourced(e, calls, script);
    }
  }

  lemma TurnSourced(d: Drain, calls: iset<Call>, reply: Reply)
    requires d.v.queue != [] && Sourced(d.v, calls)
    requires reply.Answered? ==> forall call | call in reply.answer.calls :: call in calls
    ensures Sourced(DrainStep(d, reply).v, calls)
  {
    var v := d.v.(queue := d.v.queue[1..]);
    SameSourced(d.v, v, calls);
    match reply
    case Answered(a) => DeliverSourced(v, calls, d.v.queue[0], a);
    case NotYet =>
    case Failed(_, _) =>
      FailedKeepsRecords(d, reply);
      SameSourced(v, DrainStep(d, reply).v, calls);
  }

  lemma FailedKeepsRecords(d: Drain, reply: Reply)
    requires d.v.queue != [] && reply.Failed?
    ensures SameRecords(d.v, DrainStep(d, reply).v)
  {
    DroppedKeepsRecords(d.v.(queue := d.v.queue[1..]), d.v.queue[0]);
  }

  lemma DroppedKeepsRecords(v: View, r: Request)
    ensures SameRecords(v, Dropped(v, r))
  {
    DroppedOutcome(v, r);
  }

  lemma SchemaSearchSourced(v: View, calls: iset<Call>, outcome: SendOutcome, callback: Callback)
    requires Sourced(v, calls) && (outcome.Sent? ==> Search(outcome.msgid, callback, SCHEMA_DATA) in calls)
    ensures Sourced(SchemaSearch(v, outcome, callback).0, calls)
  {
    if outcome.Sent? { PerformSourced(v, calls, Search(outcome.msgid, callback, SCHEMA_DATA)); }
  }

  lemma LoadSchemaSourced(v: View, calls: iset<Call>, t: Tick)
    requires Sourced(v, calls) && forall call | Makes(Timer(t), call) :: call in calls
    ensures Sourced(LoadSchema(v, t).0, calls)
  {
    SchemaSearchSourced(v, calls, t.firstSearch, RememberSchemaPath);
    SchemaSearchSourced(v, calls, t.firstSearch, AppendAttributeTypes);
    SchemaSearchSourced(SchemaSearch(v, t.firstSearch, AppendAttributeTypes).0, calls, t.secondSearch, AppendObjectClasses);
  }

  lemma TickSourced(v: View, calls: iset<Call>, t: Tick)
    requires Sourced(v, calls) && forall call | Makes(Timer(t), call) :: call in calls
    ensures Sourced(NextState(v, t).0, calls)
  {
    if v.state == RequestSchema {
      LoadSchemaSourced(v, calls, t);
      SameSourced(LoadSchema(v, t).0, NextState(v, t).0, calls);
    } else if v.state == Error {
      ReconnectionSourced(v, calls, t);
    } else {
      OtherStepsKeepRecords(v, t);
      SameSourced(v, NextState(v, t).0, calls);
    }
  }

  lemma ReconnectionSourced(v: View, calls: iset<Call>, t: Tick)
    requires Sourced(v, calls)
    ensures Sourced(StepError(v, t), calls)
  {
    if v.reconnectAttempts >= MAX_RECONNECT_ATTEMPTS || t.configure != Completed { SameSourced(v, StepError(v, t), calls); }
  }

  ghost predicate SameRecords(v: View, w: View) { w.registry == v.registry && w.history.fired == v.history.fired }

  lemma OtherStepsKeepRecords(v: View, t: Tick)
    requires v.state != RequestSchema && v.state != Error
    ensures SameRecords(v, NextState(v, t).0)
  {
    match v.state
    case Init => InitKeepsRecords(v, t);
    case TransportReady => BindStepKeepsRecords(v, t);
    case DetectDirectory => DetectKeepsRecords(v, t);
    case _ =>
  }

  lemma InitKeepsRecords(v: View, t: Tick)
    ensures SameRecords(v, StepInit(v, t))
  {
  }

  lemma BindStepKeepsRecords(v: View, t: Tick)
    ensures SameRecords(v, StepBind(v, t).0)
  {
  }

  lemma DetectKeepsRecords(v: View, t: Tick)
    ensures SameRecords(v, StepDetect(v, t))
  {
  }

  lemma StepSourced(v: View, calls: iset<Call>, a: Action)
    requires v.nRead <= MAX_REQUESTS && Sourced(v, calls) && forall call | Makes(a, call) :: call in calls
    ensures Sourced(Step(v, a), calls)
  {
    match a
    case Timer(t) => TickSourced(v, calls, t);
    case ReadEvent(script) =>
      forall k | 0 <= k < |script| && script[k].Answered? ensures forall call | call in script[k].answer.calls :: call in calls {
        forall call | call in script[k].answer.calls ensures call in calls { assert Makes(a, call); }
      }
      DrainedSourced(StartDrain(v), calls, script);
    case ApiCall(call) => PerformSourced(v, calls, call);
    case Break =>
  }

  ghost predicate MadeIn(actions: seq<Action>, call: Call) { exists a | a in actions :: Makes(a, call) }

  ghost function CallsOf(actions: seq<Action>): iset<Call> { iset call | MadeIn(actions, call) }

  lemma {:induction false} RunSourced(v: View, actions: seq<Action>, calls: iset<Call>)
    requires Window(v) && Sourced(v, calls) && forall a, call | a in actions && Makes(a, call) :: call in calls
    ensures Sourced(Run(v, actions), calls)
    decreases |actions|
  {
    if actions != [] {
      var n := |actions| - 1;
      RunSourced(v, actions[..n], calls);
      StepSourced(Run(v, actions[..n]), calls, actions[n]);
    }
  }

  /** In every run: each search record registered, but for cleared ones, and each one whose callback has
      run is what some call of the run asked for. */
  lemma RecordsAreAskedFor(useStartTls: bool, bindType: BindType, actions: seq<Action>)
    ensures var w := Run(Configured(useStartTls, bindType), actions);
      && (forall k | 0 <= k < |w.registry| ::
            w.registry[k] == SearchRecord(0, NoCallback, 0) || AskedFor(CallsOf(actions), w.registry[k]))
      && (forall k | 0 <= k < |w.history.fired| :: AskedFor(CallsOf(actions), w.history.fired[k].record))
      && (!w.overrun && Orderly(w.history) ==> forall k | 0 <= k < |w.registry| :: AskedFor(CallsOf(actions), w.registry[k]))
  {
    if !Run(Configured(useStartTls, bindType), actions).overrun { RunGood(useStartTls, bindType, actions); }
    assert forall a, call | a in actions && Makes(a, call) :: MadeIn(actions, call);
    RunSourced(Configured(useStartTls, bindType), actions, CallsOf(actions));
  }
}
