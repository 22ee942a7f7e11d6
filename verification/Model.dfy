/** The connection on values: what each operation of the request engine, the search registry and
    the connection state machine does to the state.  The class in Connection.dfy is proved against
    these functions; the lemmas about whole runs are about them. */
module Model {
  import opened Prelude
  import opened SchemaTable

  const MAX_REQUESTS := 8192
  const MAX_RECONNECT_ATTEMPTS := 10

  datatype State =
    | Init | TlsNegotiation | TransportReady | BindInProgress | Bound | DetectDirectory
    | Running | Error | RequestSchema | CheckSchema

  datatype BindType = Interactive | Simple

  datatype DirectoryType = Uninitialized | Unknown | ActiveDirectory | OpenLdap | FreeIpa

  /** The on_read_operation pointers.  The handlers of add, modify, delete, rename and whoami differ
      only in the message type they expect. */
  datatype Handler = NoHandler | StartTlsOnRead | BindOnRead | DirectoryOnRead | SearchOnRead | OperationOnRead

  datatype Request = Request(msgid: int, onRead: Handler)

  datatype Callback =
    | NoCallback
    | PrintEntries
    | AppendAttributeTypes
    | AppendObjectClasses
    | RememberSchemaPath
    | User(id: int)

  datatype SearchRecord = SearchRecord(msgid: int, callback: Callback, userData: int)

  /** A callback that has run: the record it was entered with, and the entries it received. */
  datatype Firing = Firing(record: SearchRecord, entries: seq<int>)

  /** The library's own searches pass the schema as user data. */
  const SCHEMA_DATA := 1

  const CLEARED_RECORD := SearchRecord(0, NoCallback, 0)

  /** A request made through the API, whose library call succeeded with the given message id.
      A call the library refuses changes nothing. */
  datatype Call =
    | Search(msgid: int, callback: Callback, userData: int)
    | Operation(msgid: int)

  datatype Fault =
    | ReusedId          // the library issued an id that is not positive or was issued before
    | DroppedSearch     // a search was dropped because ldap_result failed
    | UnansweredSearch  // a search was answered with something other than an entry or a result
    | LostSearch        // an unreadable option aborted a drain that held a search
    | KeptBind          // an incomplete configure left an interactive bind request queued
    | KeptHandshake     // INIT was entered without a reset while a TLS or bind request was queued
    | WrongId           // libldap gave out an id twice on one handle, or answered one not outstanding there
    | WrongKind         // the server's answer is of a kind that the operation with that id does not get

  /** Instrumentation: what has happened since the last completed reset. */
  datatype History = History(
    issued: set<int>,             // message ids handed out
    registered: map<int, SearchRecord>, // search records entered, by message id
    fired: seq<Firing>,           // callbacks that have run, in order
    faults: set<Fault>,
    tlsUp: bool,                  // the handshake has succeeded since INIT was last entered
    bareBind: bool,               // a bind call was made with StartTLS demanded and tlsUp false
    asked: map<int, Handler>,     // the operations of the current libldap handle, by message id
    answered: set<int>)           // the ids that it has answered

  const NO_HISTORY := History({}, map[], [], {}, false, false, map[], {})

  datatype View = View(
    useStartTls: bool,
    bindType: BindType,
    state: State,
    directoryType: DirectoryType,
    queue: seq<Request>,          // the linked requests, oldest first
    nRead: nat,                   // n_read_requests
    registry: seq<SearchRecord>,  // search_requests[..n_search_requests]
    reconnectAttempts: int,
    attributeTypes: Table,
    objectClasses: Table,
    schemaPathKnown: bool,        // the static schema_entry_path
    handlersInstalled: bool,      // the flag of that name
    listening: bool,              // the read event is registered with the event loop
    reconnects: nat,              // instrumentation: ERROR-to-INIT steps taken
    resets: nat,                  // instrumentation: times the attempt counter was zeroed
    overrun: bool,                // instrumentation: a write past the end of read_requests
    history: History)

  function Configured(useStartTls: bool, bindType: BindType): View {
    View(useStartTls, bindType, Init, Uninitialized, [], 0, [], 0, EMPTY_TABLE, EMPTY_TABLE, false,
         false, false, 0, 0, false, NO_HISTORY)
  }

  /* ---- Enqueueing ---- */

  /** Requests are only ever added behind those queued, one slot each. */
  ghost predicate Extends(v: View, w: View) {
    && v.queue <= w.queue
    && w.nRead - v.nRead == |w.queue| - |v.queue|
    && (v.nRead <= MAX_REQUESTS ==> w.nRead <= MAX_REQUESTS)
    && (v.overrun ==> w.overrun)
    && SameSettings(v, w) && SameHandlers(v, w)
  }

  ghost predicate SameHandlers(v: View, w: View) {
    w.handlersInstalled == v.handlersInstalled && w.listening == v.listening
  }

  /** The settings, the counters and the marks of failed reconfigurations. */
  ghost predicate SameSettings(v: View, w: View) {
    && v.useStartTls == w.useStartTls && v.bindType == w.bindType
    && v.reconnectAttempts == w.reconnectAttempts && v.reconnects == w.reconnects && v.resets == w.resets
    && (KeptBind in v.history.faults <==> KeptBind in w.history.faults)
    && (KeptHandshake in v.history.faults <==> KeptHandshake in w.history.faults)
  }

  /** Nothing but requests, records and the history differs. */
  ghost predicate OnlyRequests(v: View, w: View) {
    && w == v.(queue := w.queue, nRead := w.nRead, registry := w.registry, overrun := w.overrun, history := w.history)
    && w.history == v.history.(issued := w.history.issued, registered := w.history.registered,
                              faults := w.history.faults, asked := w.history.asked)
  }

  /** The library has accepted an operation. */
  function Issue(h: History, r: Request): History {
    h.(issued := h.issued + {r.msgid}, asked := h.asked[r.msgid := r.onRead],
       faults := h.faults
         + (if r.msgid <= 0 || r.msgid in h.issued then {ReusedId} else {})
         + (if r.msgid in h.asked then {WrongId} else {}))
  }

  /** Take the next slot and link it. */
  function Enqueue(v: View, r: Request): (w: View)
    ensures Extends(v, w) && OnlyRequests(v, w) && w.registry == v.registry
  {
    if v.nRead >= MAX_REQUESTS then v.(overrun := true)
    else v.(queue := v.queue + [r], nRead := v.nRead + 1, history := Issue(v.history, r))
  }

  function Register(v: View, r: SearchRecord): View {
    if |v.registry| + 1 >= MAX_REQUESTS then v
    else v.(registry := v.registry + [r],
            history := v.history.(registered := v.history.registered[r.msgid := r]))
  }

  function CallbackOf(callback: Callback): Callback {
    if callback == NoCallback then PrintEntries else callback
  }

  /** The effect of one API call; the read request is linked before the registry is consulted. */
  function Perform(v: View, call: Call): (w: View)
    ensures Extends(v, w) && v.registry <= w.registry
    ensures OnlyRequests(v, w)
  {
    match call
    case Search(msgid, callback, userData) =>
      Register(Enqueue(v, Request(msgid, SearchOnRead)), SearchRecord(msgid, CallbackOf(callback), userData))
    case Operation(msgid) => Enqueue(v, Request(msgid, OperationOnRead))
  }

  function PerformAll(v: View, calls: seq<Call>): (w: View)
    ensures Extends(v, w) && v.registry <= w.registry
    ensures OnlyRequests(v, w)
    decreases |calls|
  {
    if calls == [] then v else PerformAll(Perform(v, calls[0]), calls[1..])
  }

  /* ---- Answers ---- */

  datatype MessageKind = BindResponse | ExtendedResponse | SearchEntry | SearchResult | SearchReference | OtherMessage

  datatype SaslOutcome = SaslInProgress(msgid: int) | SaslSuccess | SaslError

  /** What the server's message, the library and the user's callbacks contribute to one dispatch. */
  datatype Answer = Answer(
    kind: MessageKind,
    optionsReadable: bool,                // ldap_get_option succeeds
    resultCode: int,                      // what it then reports
    tlsInstalled: bool,                   // TLS is up, or comes up now
    sasl: SaslOutcome,                    // the next step of an interactive bind
    attributes: seq<seq<string>>,         // attribute names, message by message
    entries: seq<int>,                    // the message chain of a search result
    definitions: seq<Option<Definition>>, // schema values in the entries; None does not parse
    calls: seq<Call>)                     // API calls made by the user's callback

  datatype Reply =
    | Failed(codeReadable: bool, messageReadable: bool) // LDAP_RES_ANY
    | NotYet                                            // LDAP_RES_UNSOLICITED: still pending
    | Answered(answer: Answer)

  /** The kinds of message with which a server answers an operation.  Of those that are neither a
      search nor part of connecting, whoami is an extended one. */
  predicate Fits(operation: Handler, kind: MessageKind) {
    match operation
    case NoHandler => false
    case StartTlsOnRead => kind == ExtendedResponse
    case BindOnRead => kind == BindResponse
    case DirectoryOnRead | SearchOnRead => kind == SearchEntry || kind == SearchResult || kind == SearchReference
    case OperationOnRead => kind == ExtendedResponse || kind == OtherMessage
  }

  /** The handle has been asked this under the id, and has not answered. */
  ghost predicate Outstanding(h: History, id: int, operation: Handler) {
    id in h.asked && h.asked[id] == operation && id !in h.answered
  }

  /** The handle answers an id.  It should be that of an operation asked of this handle and not
      answered yet, and the answer of a kind that this operation gets. */
  function Hear(h: History, msgid: int, kind: MessageKind): History {
    h.(answered := h.answered + {msgid},
       faults :=
         if msgid !in h.asked || msgid in h.answered then h.faults + {WrongId}
         else if !Fits(h.asked[msgid], kind) then h.faults + {WrongKind}
         else h.faults)
  }

  function Heard(v: View, r: Request, a: Answer): (w: View)
    ensures Extends(v, w)
  {
    v.(history := Hear(v.history, r.msgid, a.kind))
  }

  function OnTls(v: View, a: Answer): (w: View)
    ensures Extends(v, w)
  {
    if a.kind != ExtendedResponse then v
    else if a.tlsInstalled then v.(state := TransportReady, history := v.history.(tlsUp := true))
    else if a.optionsReadable then v.(state := Error)
    else v
  }

  function CallsBind(v: View): (w: View)
    ensures Extends(v, w)
  {
    v.(history := v.history.(bareBind := v.history.bareBind || (v.useStartTls && !v.history.tlsUp)))
  }

  /** A response that the handler takes for a failure: an error only if the library reports one. */
  function BindNotInProgress(v: View, a: Answer): (w: View)
    ensures Extends(v, w)
  {
    if a.optionsReadable && a.resultCode != 0 then v.(state := Error) else v
  }

  /** The answer of the interactive bind call that a bind response leads to. */
  function OnSaslStep(v: View, a: Answer): (w: View)
    ensures Extends(v, w)
  {
    match a.sasl
    case SaslInProgress(msgid) => Enqueue(v, Request(msgid, BindOnRead))
    case SaslSuccess => v.(state := Bound)
    case SaslError => BindNotInProgress(v, a)
  }

  /** For a simple bind the message type itself is compared with the success code, never equal. */
  function OnBind(v: View, a: Answer): (w: View)
    ensures Extends(v, w)
  {
    if a.kind != BindResponse then v
    else if v.bindType == Simple then BindNotInProgress(v, a)
    else OnSaslStep(CallsBind(v), a)
  }

  function RecogniseAttribute(name: string): Option<DirectoryType> {
    if name == "isGlobalCatalogReady" then Some(ActiveDirectory)
    else if name == "objectClass" then Some(OpenLdap)
    else None
  }

  /** The first recognised attribute of one message. */
  function RecogniseMessage(names: seq<string>): Option<DirectoryType> {
    if names == [] then None
    else if RecogniseAttribute(names[0]).Some? then RecogniseAttribute(names[0])
    else RecogniseMessage(names[1..])
  }

  /** The last message with a recognised attribute decides. */
  function Recognise(messages: seq<seq<string>>, before: DirectoryType): DirectoryType {
    if messages == [] then before
    else
      var last := RecogniseMessage(messages[|messages| - 1]);
      if last.Some? then last.value else Recognise(messages[..|messages| - 1], before)
  }

  function OnDirectory(v: View, a: Answer): (w: View)
    ensures Extends(v, w)
  {
    match a.kind
    case SearchEntry | SearchResult =>
      var found := Recognise(a.attributes, v.directoryType);
      v.(directoryType := if found == Uninitialized then Unknown else found)
    case SearchReference => v
    case _ => PerformAll(v, a.calls)
  }

  /** The first record with this message id. */
  function FindRecord(registry: seq<SearchRecord>, msgid: int): (r: Option<nat>)
    ensures r.None? ==> forall k | 0 <= k < |registry| :: registry[k].msgid != msgid
    ensures r.Some? ==>
      && r.value < |registry| && registry[r.value].msgid == msgid
      && forall k | 0 <= k < r.value :: registry[k].msgid != msgid
  {
    if registry == [] then None
    else if registry[0].msgid == msgid then Some(0)
    else match FindRecord(registry[1..], msgid)
      case None => None
      case Some(i) => Some(i + 1)
  }

  /** Removal by index, with the index test the source makes: against the number of *read*
      requests. */
  function RemoveRecord(registry: seq<SearchRecord>, nRead: nat, i: nat): seq<SearchRecord>
    requires i < |registry|
  {
    if i == nRead - 1 then registry[i := CLEARED_RECORD][..|registry| - 1]
    else registry[..i] + registry[i + 1..]
  }

  function Fire(h: History, record: SearchRecord, entries: seq<int>): History {
    h.(fired := h.fired + [Firing(record, entries)])
  }

  function Fired(v: View, record: SearchRecord, a: Answer): (w: View)
    ensures Extends(v, w) && w.registry == v.registry
  {
    v.(history := Fire(v.history, record, a.entries))
  }

  function RunCallback(v: View, record: SearchRecord, a: Answer): (w: View)
    ensures Extends(v, w) && v.registry <= w.registry
  {
    var fired := Fired(v, record, a);
    match record.callback
    case NoCallback => v
    case PrintEntries => fired
    case AppendAttributeTypes => fired.(attributeTypes := AppendAll(v.attributeTypes, a.definitions))
    case AppendObjectClasses => fired.(objectClasses := AppendAll(v.objectClasses, a.definitions))
    case RememberSchemaPath => fired.(schemaPathKnown := v.schemaPathKnown || a.definitions != [])
    case User(_) => PerformAll(fired, a.calls)
  }

  function Blame(v: View, fault: Fault): View {
    v.(history := v.history.(faults := v.history.faults + {fault}))
  }

  function OnSearch(v: View, msgid: int, a: Answer): (w: View)
    ensures Extends(v, w)
  {
    match a.kind
    case SearchEntry | SearchResult =>
      (match FindRecord(v.registry, msgid)
       case None => PerformAll(v, a.calls)
       case Some(i) =>
         if v.registry[i].callback == NoCallback then v
         else
           var w := RunCallback(v, v.registry[i], a);
           w.(registry := RemoveRecord(w.registry, w.nRead, i)))
    case SearchReference => Blame(v, UnansweredSearch)
    case _ => PerformAll(Blame(v, UnansweredSearch), a.calls)
  }

  /** What the request's handler does with the answer. */
  function Dispatch(v: View, r: Request, a: Answer): (w: View)
    ensures Extends(v, w)
  {
    match r.onRead
    case NoHandler => v
    case StartTlsOnRead => OnTls(v, a)
    case BindOnRead => OnBind(v, a)
    case DirectoryOnRead => OnDirectory(v, a)
    case SearchOnRead => OnSearch(v, r.msgid, a)
    case OperationOnRead => PerformAll(v, a.calls)
  }

  /** The answer reaches the request's handler. */
  function Deliver(v: View, r: Request, a: Answer): (w: View)
    ensures Extends(v, w)
  {
    Dispatch(Heard(v, r, a), r, a)
  }

  /* ---- The drain ---- */

  /** Inside one read event: `pending` is the local array; `popped` records each request taken with
      the reply it met. */
  datatype Drain = Drain(v: View, pending: seq<Request>, popped: seq<(Request, Reply)>, aborted: bool)

  function StartDrain(v: View): Drain { Drain(v, [], [], false) }

  function ReplyAt(script: seq<Reply>, k: nat): Reply { if k < |script| then script[k] else NotYet }

  function OptionalTransitionOnError(v: View): View {
    if v.state == TlsNegotiation || v.state == BindInProgress then v.(state := Error) else v
  }

  /** A request whose ldap_result failed, with the library's error readable. */
  function Dropped(v: View, r: Request): (w: View)
    ensures SameSettings(v, w) && SameHandlers(v, w)
    ensures w.queue == v.queue && w.nRead == v.nRead
  {
    OptionalTransitionOnError(if r.onRead == SearchOnRead then Blame(v, DroppedSearch) else v)
  }

  /** The requests that an early return forgets. */
  function Forgotten(v: View, lost: seq<Request>): (w: View)
    ensures SameSettings(v, w) && SameHandlers(v, w)
    ensures w.queue == v.queue && w.nRead == v.nRead
  {
    if exists q | q in lost :: q.onRead == SearchOnRead then Blame(v, LostSearch) else v
  }

  function DrainStep(d: Drain, reply: Reply): (e: Drain)
    requires d.v.queue != []
    ensures SameSettings(d.v, e.v) && SameHandlers(d.v, e.v)
    ensures e.v.nRead - d.v.nRead == |e.v.queue| - |d.v.queue| + 1 && (d.v.nRead <= MAX_REQUESTS ==> e.v.nRead <= MAX_REQUESTS)
  {
    var r := d.v.queue[0];
    var v := d.v.(queue := d.v.queue[1..]);
    var popped := d.popped + [(r, reply)];
    match reply
    case Failed(codeReadable, messageReadable) =>
      if codeReadable && messageReadable then Drain(Dropped(v, r), d.pending, popped, false)
      else Drain(Forgotten(v, d.pending + [r]), d.pending, popped, true)
    case NotYet => Drain(v, d.pending + [r], popped, false)
    case Answered(answer) => Drain(Deliver(v, r, answer), d.pending, popped, false)
  }

  predicate Finished(d: Drain) { d.aborted || d.v.overrun || d.v.queue == [] }

  /** Popped and queued requests have distinct slots below the counter. */
  ghost predicate InWindow(d: Drain) {
    |d.pending| <= |d.popped| && |d.popped| + |d.v.queue| <= d.v.nRead <= MAX_REQUESTS
  }

  /** Each step uses up a queued request, and a request a handler adds uses up a slot. */
  lemma TurnShrinks(d: Drain, reply: Reply)
    requires d.v.nRead <= MAX_REQUESTS && d.v.queue != []
    ensures var e := DrainStep(d, reply);
      && e.v.nRead <= MAX_REQUESTS && |e.popped| == |d.popped| + 1 && (InWindow(d) ==> InWindow(e))
      && MAX_REQUESTS - e.v.nRead + |e.v.queue| < MAX_REQUESTS - d.v.nRead + |d.v.queue|
  {
  }

  function Drained(d: Drain, script: seq<Reply>): (e: Drain)
    requires d.v.nRead <= MAX_REQUESTS
    ensures Finished(e) && SameSettings(d.v, e.v) && SameHandlers(d.v, e.v)
    ensures InWindow(d) ==> InWindow(e)
    decreases MAX_REQUESTS - d.v.nRead + |d.v.queue|
  {
    if Finished(d) then d
    else
      TurnShrinks(d, ReplyAt(script, |d.popped|));
      Drained(DrainStep(d, ReplyAt(script, |d.popped|)), script)
  }

  /** One turn of the loop. */
  lemma DrainTurns(d: Drain, script: seq<Reply>) returns (e: Drain)
    requires d.v.nRead <= MAX_REQUESTS && !Finished(d)
    ensures e == DrainStep(d, ReplyAt(script, |d.popped|)) && Drained(d, script) == Drained(e, script)
    ensures e.v.nRead <= MAX_REQUESTS && |e.popped| == |d.popped| + 1 && (InWindow(d) ==> InWindow(e))
    ensures MAX_REQUESTS - e.v.nRead + |e.v.queue| < MAX_REQUESTS - d.v.nRead + |d.v.queue|
    ensures Finished(e) ==> Drained(e, script) == e
  {
    TurnShrinks(d, ReplyAt(script, |d.popped|));
    e := DrainStep(d, ReplyAt(script, |d.popped|));
  }

  /** The rewind after the loop; an abort skips it. */
  function Rewound(d: Drain): View {
    if d.aborted || d.v.overrun then d.v
    else d.v.(queue := d.pending, nRead := |d.pending|)
  }

  /** The linked requests occupy the slots just below the counter. */
  ghost predicate Window(v: View) { |v.queue| <= v.nRead <= MAX_REQUESTS }

  /** What a step leaves alone: the configuration, and the window. */
  ghost predicate Keeps(v: View, w: View) {
    w.useStartTls == v.useStartTls && w.bindType == v.bindType && (Window(v) ==> Window(w))
  }

  function OnReadEvent(v: View, script: seq<Reply>): (w: View)
    requires v.nRead <= MAX_REQUESTS
    ensures Keeps(v, w) && SameSettings(v, w) && SameHandlers(v, w)
  {
    Rewound(Drained(StartDrain(v), script))
  }

  /* ---- The state machine ---- */

  /** A step that neither reconnects nor zeroes the attempt counter. */
  ghost predicate Advances(v: View, w: View) {
    && Keeps(v, w) && SameSettings(v, w)
    && w.attributeTypes == v.attributeTypes && w.objectClasses == v.objectClasses
  }

  datatype SendOutcome = Sent(msgid: int) | NotSent

  datatype BindOutcome = BindSent(msgid: int) | BindContinues(msgid: int) | Connecting | BindRefused

  /** How far connection_configure gets. */
  datatype ConfigureOutcome =
    | Unreachable   // ldap_initialize fails and nothing is touched
    | Incomplete    // the state machine is replaced, but an option before the resets fails
    | Completed

  /** What the library answers to the calls one timer step may make. */
  datatype Tick = Tick(
    tls: SendOutcome,
    bind: BindOutcome,
    installs: bool,          // the event handlers can be installed
    directory: SendOutcome,
    firstSearch: SendOutcome,
    secondSearch: SendOutcome,
    configure: ConfigureOutcome)

  datatype ReturnCode = RcSuccess | RcFailure | RcInProgress | RcRepeat

  /** connection_install_handlers, unless the flag says it has been done. */
  function Installed(v: View): View {
    if v.handlersInstalled then v else v.(handlersInstalled := true, listening := true)
  }

  predicate CanInstall(v: View, t: Tick) { v.handlersInstalled || t.installs }

  function StepInit(v: View, t: Tick): (w: View)
    ensures Advances(v, w)
  {
    if !v.useStartTls then v.(state := TransportReady)
    else if t.tls.NotSent? || !CanInstall(v, t) then v.(state := Error)
    else Enqueue(Installed(v), Request(t.tls.msgid, StartTlsOnRead)).(state := TlsNegotiation)
  }

  /** What the bind call of a timer step returns.  Only an interactive bind can report that it
      continues. */
  function BindCode(v: View, t: Tick): ReturnCode {
    match t.bind
    case Connecting => RcRepeat
    case BindRefused => RcFailure
    case BindSent(_) => if CanInstall(v, t) then RcSuccess else RcFailure
    case BindContinues(_) => if v.bindType == Interactive && CanInstall(v, t) then RcInProgress else RcFailure
  }

  function AfterBind(rc: ReturnCode): State {
    match rc
    case RcSuccess => DetectDirectory
    case RcInProgress => BindInProgress
    case RcRepeat => TransportReady
    case RcFailure => Error
  }

  /** The bind call, and its request if it went out. */
  function SendBind(v: View, t: Tick): (w: View)
    ensures Advances(v, w)
  {
    var rc := BindCode(v, t);
    if rc == RcSuccess || rc == RcInProgress
    then Enqueue(Installed(CallsBind(v)), Request(t.bind.msgid, BindOnRead)) else CallsBind(v)
  }

  function StepBind(v: View, t: Tick): (r: (View, ReturnCode))
    ensures Advances(v, r.0)
  {
    (SendBind(v, t).(state := AfterBind(BindCode(v, t))), BindCode(v, t))
  }

  function StepDetect(v: View, t: Tick): (w: View)
    ensures Advances(v, w)
  {
    if v.directoryType != Uninitialized then v.(state := RequestSchema)
    else
      match t.directory
      case Sent(msgid) => Enqueue(v, Request(msgid, DirectoryOnRead)).(state := DetectDirectory)
      case NotSent => v.(state := Error)
  }

  /** An internal search call, and whether it reported success. */
  function SchemaSearch(v: View, outcome: SendOutcome, callback: Callback): (r: (View, bool))
    ensures Advances(v, r.0)
  {
    match outcome
    case NotSent => (v, false)
    case Sent(msgid) => (Perform(v, Search(msgid, callback, SCHEMA_DATA)), |v.registry| + 1 < MAX_REQUESTS)
  }

  function LoadTables(v: View, t: Tick): (r: (View, ReturnCode))
    ensures Advances(v, r.0)
  {
    var (w, ok) := SchemaSearch(v, t.firstSearch, AppendAttributeTypes);
    if !ok then (w, RcFailure)
    else
      var (x, ok2) := SchemaSearch(w, t.secondSearch, AppendObjectClasses);
      (x, if ok2 then RcSuccess else RcFailure)
  }

  function LoadSchema(v: View, t: Tick): (r: (View, ReturnCode))
    ensures Advances(v, r.0)
  {
    match v.directoryType
    case OpenLdap => LoadTables(v, t)
    case ActiveDirectory =>
      if v.schemaPathKnown then LoadTables(v, t)
      else
        var (w, ok) := SchemaSearch(v, t.firstSearch, RememberSchemaPath);
        (w, if ok then RcInProgress else RcFailure)
    case FreeIpa => (v, RcFailure)
    case Unknown | Uninitialized => (v, RcSuccess)
  }

  function StepSchema(v: View, t: Tick): (w: View)
    ensures Advances(v, w)
  {
    var (loaded, rc) := LoadSchema(v, t);
    loaded.(state := if rc == RcSuccess then CheckSchema else if rc == RcInProgress then RequestSchema else Error)
  }

  predicate SchemaReady(v: View) {
    v.directoryType == OpenLdap ==> |v.objectClasses.byOid| > 0 && |v.attributeTypes.byOid| > 0
  }

  /** The part of connection_configure that starts the connection afresh. */
  function Reset(v: View): View {
    v.(directoryType := Uninitialized, attributeTypes := EMPTY_TABLE, objectClasses := EMPTY_TABLE,
       queue := [], nRead := 0, registry := [], reconnectAttempts := 0, resets := v.resets + 1,
       handlersInstalled := false,
       history := NO_HISTORY)
  }

  predicate IsHandshake(r: Request) { r.onRead == StartTlsOnRead || r.onRead == BindOnRead }

  /** A configure that fails before its resets leaves the queue and the counters as they were. */
  function KeepsRequests(v: View, incomplete: bool): View {
    var faults := v.history.faults
      + (if exists r | r in v.queue :: IsHandshake(r) then {KeptHandshake} else {})
      + (if incomplete && v.bindType == Interactive && exists r | r in v.queue :: r.onRead == BindOnRead
         then {KeptBind} else {});
    v.(history := v.history.(faults := faults), handlersInstalled := v.handlersInstalled && !incomplete)
  }

  /** The libldap handle is a new one, of which nothing has been asked. */
  function Reconnected(v: View): View {
    v.(state := Init, reconnectAttempts := v.reconnectAttempts + 1, reconnects := v.reconnects + 1,
       history := v.history.(tlsUp := false, asked := map[], answered := {}))
  }

  /** Closing deletes the read event; whether configuring succeeds is not looked at. */
  function StepError(v: View, t: Tick): (w: View)
    ensures Keeps(v, w)
  {
    var closed := v.(listening := false);
    if v.reconnectAttempts >= MAX_RECONNECT_ATTEMPTS then closed
    else Reconnected(if t.configure == Completed then Reset(closed) else KeepsRequests(closed, t.configure == Incomplete))
  }

  function NextState(v: View, t: Tick): (r: (View, ReturnCode))
    ensures Keeps(v, r.0)
  {
    match v.state
    case Init => (StepInit(v, t), RcSuccess)
    case TlsNegotiation => (v, RcSuccess)
    case TransportReady => StepBind(v, t)
    case BindInProgress => (v, RcSuccess)
    case Bound => (v.(state := DetectDirectory), RcSuccess)
    case DetectDirectory => (StepDetect(v, t), RcSuccess)
    case RequestSchema => (StepSchema(v, t), RcSuccess)
    case CheckSchema => (if SchemaReady(v) then v.(state := Running) else v, RcSuccess)
    case Running => (v.(reconnectAttempts := 0, resets := v.resets + 1), RcSuccess)
    case Error => (StepError(v, t), RcSuccess)
  }

  /** Every other state's step leaves settings, counters and tables alone. */
  lemma TickAdvances(v: View, t: Tick)
    requires v.state != Error && v.state != Running
    ensures Advances(v, NextState(v, t).0)
  {
  }

  /* ---- Runs ---- */

  datatype Action =
    | Timer(tick: Tick)
    | ReadEvent(script: seq<Reply>)
    | ApiCall(call: Call)
    | Break               // the application puts the connection into ERROR

  function Step(v: View, a: Action): (w: View)
    requires v.nRead <= MAX_REQUESTS
    ensures Keeps(v, w)
  {
    if v.overrun then v
    else
      match a
      case Timer(tick) => NextState(v, tick).0
      case ReadEvent(script) => if v.listening then OnReadEvent(v, script) else v
      case ApiCall(call) => Perform(v, call)
      case Break => v.(state := Error)
  }

  function Run(v: View, actions: seq<Action>): (w: View)
    requires Window(v)
    ensures Window(w) && w.useStartTls == v.useStartTls && w.bindType == v.bindType
  {
    if actions == [] then v else Step(Run(v, actions[..|actions| - 1]), actions[|actions| - 1])
  }

  lemma RunEnds(v: View, actions: seq<Action>, last: Action)
    requires Window(v)
    ensures Run(v, actions + [last]) == Step(Run(v, actions), last)
  {
    assert (actions + [last])[..|actions|] == actions;
  }
}
