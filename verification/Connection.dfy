/** The connection as the source keeps it: an array of request slots whose embedded nodes are linked
    into the call queue, an array of search records, two counters and the state machine.  Every
    method is proved against the function of the same name in Model. */
module Connection {
  import opened Prelude
  import opened RequestQueue
  import opened SchemaTable
  import opened Schema
  import M = Model
  import opened Model
  import opened Directory
  import Entries

  method EmbeddedNodes(count: nat) returns (nodes: seq<Node>, ghost pool: set<Node>)
    ensures |nodes| == count && fresh(pool)
    ensures forall i | 0 <= i < count :: nodes[i].slot == i && nodes[i] in pool
  {
    nodes, pool := [], {};
    while |nodes| < count
      invariant |nodes| <= count && fresh(pool)
      invariant forall i | 0 <= i < |nodes| :: nodes[i].slot == i && nodes[i] in pool
    {
      var node := new Node(|nodes|);
      nodes, pool := nodes + [node], pool + {node};
    }
  }

  /** The shifting loop of removal: each later record moves down one place. */
  method ShiftDown(records: array<SearchRecord>, index: nat, count: nat)
    requires index < count <= records.Length
    modifies records
    ensures forall k | 0 <= k < count - 1 :: records[k] == old(records[if k < index then k else k + 1])
    ensures forall k | count <= k < records.Length :: records[k] == old(records[k])
  {
    var requestIndex := index;
    while requestIndex < count - 1
      invariant index <= requestIndex <= count - 1
      invariant forall k | 0 <= k < requestIndex :: records[k] == old(records[if k < index then k else k + 1])
      invariant forall k | requestIndex <= k < records.Length && k != requestIndex :: records[k] == old(records[k])
    {
      records[requestIndex] := records[requestIndex + 1];
      requestIndex := requestIndex + 1;
    }
  }

  lemma NextNodeIsFree(nodes: seq<Node>, lo: nat, n: nat, linked: seq<Node>)
    requires lo <= n < |nodes| && forall i | 0 <= i < |nodes| :: nodes[i].slot == i
    requires |linked| == n - lo && forall i | 0 <= i < |linked| :: linked[i] == nodes[lo + i]
    ensures nodes[n] !in linked
  {
    forall i | 0 <= i < |linked| ensures linked[i].slot == lo + i {}
  }

  lemma {:induction false} OverrunStays(v: View, actions: seq<Action>, i: nat)
    requires Window(v) && i <= |actions| && Run(v, actions[..i]).overrun
    ensures Run(v, actions).overrun
    decreases |actions|
  {
    var n := |actions| - 1;
    if i <= n {
      assert actions[..n][..i] == actions[..i];
      OverrunStays(v, actions[..n], i);
    } else {
      assert actions[..i] == actions;
    }
  }

  lemma RunUnfolds(v: View, actions: seq<Action>, i: nat)
    requires Window(v) && i < |actions|
    ensures Run(v, actions[..i + 1]) == Step(Run(v, actions[..i]), actions[i])
  {
    assert actions[..i] + [actions[i]] == actions[..i + 1];
    RunEnds(v, actions[..i], actions[i]);
  }

  lemma DrainStarts(v: View, script: seq<Reply>) returns (d: Drain)
    requires Window(v)
    ensures d == StartDrain(v) && InWindow(d) && OnReadEvent(v, script) == Rewound(Drained(d, script))
    ensures OnReadEvent(v, script).overrun == Drained(d, script).v.overrun
  {
    d := StartDrain(v);
  }

  /** A request record copied out of its slot, its node's link included. */
  datatype Copied = Copied(request: Request, prev: Node?)

  method NewArray<T(0)>(size: nat) returns (a: array<T>)
    ensures fresh(a) && a.Length == size
  {
    a := new T[size];
  }

  ghost function Requests(pending: array<Copied>, count: nat): seq<Request>
    requires count <= pending.Length
    reads pending
  {
    seq(count, i requires 0 <= i < count reads pending => pending[i].request)
  }

  ghost function Slots(requests: array<Request>, lo: nat, hi: nat): seq<Request>
    requires lo <= hi <= requests.Length
    reads requests
  {
    seq(hi - lo, i requires 0 <= i < hi - lo reads requests => requests[lo + i])
  }

  lemma SlotsExtend(requests: array<Request>, lo: nat, hi: nat)
    requires lo <= hi < requests.Length
    ensures Slots(requests, lo, hi + 1) == Slots(requests, lo, hi) + [requests[hi]]
  {
  }

  class Connection {
    const useStartTls: bool
    const bindType: BindType

    var state: State
    var directoryType: DirectoryType
    var msgid: int

    const readRequests: array<Request>
    const nodes: seq<Node>             // the node embedded in each slot
    ghost const pool: set<Node>        // all of them
    var nReadRequests: int
    var callqueue: Queue

    const searchRequests: array<SearchRecord>
    var nSearchRequests: int

    var nReconnectAttempts: int

    var attributeTypes: Index
    var objectClasses: Index
    var schemaPathKnown: bool

    var handlersInstalled: bool
    var listening: bool                // the read event is registered

    ghost var reconnects: nat
    ghost var resets: nat
    ghost var history: History

    /** Whether or not a drain is under way: the linked nodes are exactly those of the slots just
        below the counter, in ascending order. */
    ghost predicate Valid()
      reads this`nReadRequests, this`nSearchRequests, this`callqueue, this`attributeTypes, this`objectClasses
      reads callqueue, callqueue.nodes, attributeTypes, objectClasses
    {
      && Shape() && InBounds() && callqueue.Valid() && attributeTypes.Valid() && objectClasses.Valid()
      && forall i | 0 <= i < |callqueue.nodes| :: callqueue.nodes[i] == nodes[nReadRequests - |callqueue.nodes| + i]
    }

    /** What never changes. */
    ghost predicate Shape()
      reads this`callqueue, this`attributeTypes, this`objectClasses
    {
      && readRequests.Length == searchRequests.Length == |nodes| == MAX_REQUESTS == callqueue.capacity
      && (forall i | 0 <= i < |nodes| :: nodes[i].slot == i && nodes[i] in pool)
      && attributeTypes != objectClasses
    }

    ghost predicate InBounds()
      reads this`nReadRequests, this`nSearchRequests, this`callqueue, callqueue`nodes
    {
      |callqueue.nodes| <= nReadRequests <= MAX_REQUESTS && 0 <= nSearchRequests <= MAX_REQUESTS
    }

    ghost function LinkedRequests(): seq<Request>
      requires readRequests.Length == MAX_REQUESTS && InBounds()
      reads this`nReadRequests, this`nSearchRequests, this`callqueue, callqueue`nodes, readRequests
    {
      Slots(readRequests, nReadRequests - |callqueue.nodes|, nReadRequests)
    }

    ghost function Registry(): seq<SearchRecord>
      requires searchRequests.Length == MAX_REQUESTS && 0 <= nSearchRequests <= MAX_REQUESTS
      reads this`nSearchRequests, searchRequests
    {
      searchRequests[..nSearchRequests]
    }

    ghost function View(): View
      requires Valid()
      reads this, callqueue, callqueue.nodes, readRequests, searchRequests, attributeTypes, objectClasses
    {
      M.View(useStartTls, bindType, state, directoryType, LinkedRequests(), nReadRequests, Registry(), nReconnectAttempts,
             attributeTypes.Contents(), objectClasses.Contents(), schemaPathKnown, handlersInstalled, listening,
             reconnects, resets, false, history)
    }

    /** What ldap_requests_init and search_requests_init leave in a slot. */
    ghost predicate ClearedSlot(i: nat)
      requires i < |nodes| == readRequests.Length == searchRequests.Length
      reads nodes[i], readRequests, searchRequests
    {
      && readRequests[i] == Request(-1, NoHandler) && nodes[i].prev == null
      && searchRequests[i].msgid == -1 && searchRequests[i].callback == NoCallback
    }

    twostate predicate SameParts()
      reads this
    {
      callqueue == old(callqueue) && attributeTypes == old(attributeTypes) && objectClasses == old(objectClasses)
    }

    twostate predicate SameRequests()
      requires old(Valid()) && Valid()
      reads this, callqueue, callqueue.nodes, readRequests, searchRequests, attributeTypes, objectClasses
    {
      LinkedRequests() == old(LinkedRequests()) && Registry() == old(Registry())
    }

    constructor (useStartTls: bool, bindType: BindType)
      ensures Valid() && View() == Configured(useStartTls, bindType) && readRequests.Length == 8192
      ensures state == Init && directoryType == Uninitialized && nReadRequests == nSearchRequests == nReconnectAttempts == 0
      ensures callqueue.nodes == [] && attributeTypes.appended == objectClasses.appended == []
      ensures !handlersInstalled && !listening && !schemaPathKnown
      ensures fresh(readRequests) && fresh(searchRequests) && fresh(callqueue) && fresh(attributeTypes) && fresh(objectClasses) && fresh(pool)
    {
      this.useStartTls, this.bindType := useStartTls, bindType;
      state, directoryType, msgid := Init, Uninitialized, 0;
      var slots: array<Request> := NewArray(MAX_REQUESTS);
      var records: array<SearchRecord> := NewArray(MAX_REQUESTS);
      readRequests, searchRequests := slots, records;
      var embedded;
      ghost var all;
      embedded, all := EmbeddedNodes(MAX_REQUESTS);
      nodes, pool := embedded, all;
      nReadRequests := 0;
      callqueue := new Queue(MAX_REQUESTS);
      nSearchRequests := 0;
      nReconnectAttempts := 0;
      attributeTypes := new Index();
      objectClasses := new Index();
      schemaPathKnown, handlersInstalled, listening := false, false, false;
      reconnects, resets, history := 0, 0, NO_HISTORY;
      new;
      assert LinkedRequests() == [] && Registry() == [];
    }

    /* ---- Enqueueing ---- */

    /** The push whose result the source ignores: it cannot fail while the queue has room. */
    method Link(slot: nat)
      requires Shape() && callqueue.Valid() && |callqueue.nodes| < MAX_REQUESTS && slot < MAX_REQUESTS
      requires nodes[slot] !in callqueue.nodes && forall n | n in callqueue.nodes :: n in pool
      modifies callqueue, pool
      ensures callqueue.Valid() && callqueue.nodes == old(callqueue.nodes) + [nodes[slot]]
    {
      assert callqueue.nodes != [] ==> callqueue.tail in callqueue.nodes;
      var rc := Push(callqueue, nodes[slot]);
      assert rc == Success;
    }

    /** What every operation does once the library has accepted it: fill the next slot, count it,
        link its node.  The slot is never one that is linked. */
    method TakeSlot(request: Request)
      requires Valid() && nReadRequests < MAX_REQUESTS
      modifies this`nReadRequests, readRequests, callqueue, pool
      ensures Valid() && nReadRequests == old(nReadRequests) + 1 && |callqueue.nodes| == old(|callqueue.nodes|) + 1
      ensures LinkedRequests() == old(LinkedRequests()) + [request]
      ensures nodes[old(nReadRequests)] !in old(callqueue.nodes)
    {
      FillSlot(request);
      SlotsExtend(readRequests, nReadRequests - |callqueue.nodes|, nReadRequests);
      LinkSlot();
    }

    method LinkSlot()
      requires Valid() && nReadRequests < MAX_REQUESTS
      modifies this`nReadRequests, callqueue, pool
      ensures Valid() && nReadRequests == old(nReadRequests) + 1 && |callqueue.nodes| == old(|callqueue.nodes|) + 1
      ensures nodes[old(nReadRequests)] !in old(callqueue.nodes)
    {
      assert nodes[nReadRequests] !in callqueue.nodes by {
        NextNodeIsFree(nodes, nReadRequests - |callqueue.nodes|, nReadRequests, callqueue.nodes);
      }
      nReadRequests := nReadRequests + 1;
      Link(nReadRequests - 1);
    }

    method FillSlot(request: Request)
      requires Valid() && nReadRequests < MAX_REQUESTS
      modifies readRequests
      ensures Valid() && readRequests[nReadRequests] == request && LinkedRequests() == old(LinkedRequests())
    {
      readRequests[nReadRequests] := request;
    }

    method Enqueue(msgid: int, handler: Handler)
      requires Valid() && nReadRequests < MAX_REQUESTS
      modifies this`nReadRequests, this`history, readRequests, callqueue, pool
      ensures Valid() && View() == M.Enqueue(old(View()), Request(msgid, handler)) && SameParts()
    {
      TakeSlot(Request(msgid, handler));
      Record(Request(msgid, handler));
    }

    method Record(request: Request)
      requires Valid()
      modifies this`history
      ensures Valid() && View() == old(View()).(history := Issue(old(history), request)) && SameParts()
    {
      history := Issue(history, request);
    }

    /* ---- API calls (entry.c) ---- */

    method Register(record: SearchRecord)
      requires Valid() && nSearchRequests + 1 < MAX_REQUESTS
      modifies this`nSearchRequests, this`history, searchRequests
      ensures Valid() && View() == M.Register(old(View()), record) && SameParts()
    {
      ghost var registry := searchRequests[..nSearchRequests];
      searchRequests[nSearchRequests] := record;
      nSearchRequests := nSearchRequests + 1;
      history := history.(registered := history.registered[record.msgid := record]);
      assert searchRequests[..nSearchRequests] == registry + [record];
    }

    method Search(msgid: int, callback: Callback, userData: int) returns (rc: ReturnCode)
      requires Valid() && nReadRequests < MAX_REQUESTS
      modifies this`nReadRequests, this`nSearchRequests, this`history, readRequests, searchRequests, callqueue, pool
      ensures Valid() && View() == M.Perform(old(View()), Call.Search(msgid, callback, userData)) && SameParts()
      ensures rc == if old(nSearchRequests) + 1 < MAX_REQUESTS then RcSuccess else RcFailure
      ensures LinkedRequests() == old(LinkedRequests()) + [Request(msgid, SearchOnRead)]
      ensures Registry() == old(Registry()) + if rc == RcFailure then []
        else [SearchRecord(msgid, if callback == NoCallback then PrintEntries else callback, userData)]
    {
      Enqueue(msgid, SearchOnRead);
      if nSearchRequests + 1 >= MAX_REQUESTS {
        return RcFailure;
      }
      Register(SearchRecord(msgid, if callback != NoCallback then callback else PrintEntries, userData));
      return RcSuccess;
    }

    method Perform(call: Call)
      requires Valid() && !M.Perform(View(), call).overrun
      modifies this`nReadRequests, this`nSearchRequests, this`history, readRequests, searchRequests, callqueue, pool
      ensures Valid() && View() == M.Perform(old(View()), call) && SameParts()
    {
      match call
      case Search(msgid, callback, userData) =>
        var rc := Search(msgid, callback, userData);
      case Operation(msgid) => Enqueue(msgid, OperationOnRead);
    }

    /** The calls a user's callback makes, one after the other. */
    method PerformAll(calls: seq<Call>)
      requires Valid() && !M.PerformAll(View(), calls).overrun
      modifies this`nReadRequests, this`nSearchRequests, this`history, readRequests, searchRequests, callqueue, pool
      ensures Valid() && View() == M.PerformAll(old(View()), calls) && SameParts()
      decreases |calls|
    {
      if calls != [] {
        Perform(calls[0]);
        PerformAll(calls[1..]);
      }
    }

    method RemoveSearchRequest(index: nat)
      requires Valid() && index < nSearchRequests
      modifies this`nSearchRequests, searchRequests
      ensures Valid() && SameParts()
      ensures View() == old(View()).(registry := RemoveRecord(old(View()).registry, nReadRequests, index))
    {
      DropRecord(index);
    }

    method DropRecord(index: nat)
      requires searchRequests.Length == MAX_REQUESTS && index < nSearchRequests <= MAX_REQUESTS && 0 <= nReadRequests
      modifies this`nSearchRequests, searchRequests
      ensures nSearchRequests == old(nSearchRequests) - 1
      ensures Registry() == RemoveRecord(old(Registry()), nReadRequests, index)
    {
      if index == nReadRequests - 1 {
        ClearRecord(index);
      } else {
        ShiftOut(index);
      }
    }

    method ClearRecord(index: nat)
      requires searchRequests.Length == MAX_REQUESTS && index < nSearchRequests <= MAX_REQUESTS
      modifies this`nSearchRequests, searchRequests
      ensures nSearchRequests == old(nSearchRequests) - 1
      ensures Registry() == old(Registry())[index := CLEARED_RECORD][..nSearchRequests]
      ensures searchRequests[index] == SearchRecord(0, NoCallback, 0)
    {
      nSearchRequests := nSearchRequests - 1;
      searchRequests[index] := CLEARED_RECORD;
    }

    method ShiftOut(index: nat)
      requires searchRequests.Length == MAX_REQUESTS && index < nSearchRequests <= MAX_REQUESTS
      modifies this`nSearchRequests, searchRequests
      ensures nSearchRequests == old(nSearchRequests) - 1
      ensures Registry() == old(Registry())[..index] + old(Registry())[index + 1..]
      ensures searchRequests[nSearchRequests] == SearchRecord(0, NoCallback, 0)
    {
      ShiftDown(searchRequests, index, nSearchRequests);
      nSearchRequests := nSearchRequests - 1;
      searchRequests[nSearchRequests] := CLEARED_RECORD;
    }

    /* ---- Handlers ---- */

    /** Appends the values of an entry until one does not parse or its append reports failure. */
    method AppendDefinitions(index: Index, values: seq<Option<Definition>>)
      modifies index
      ensures index.Contents() == AppendAll(old(index.Contents()), values)
      ensures old(index.Valid()) ==> index.Valid()
    {
      var i := 0;
      while i < |values| && values[i].Some?
        invariant 0 <= i <= |values|
        invariant AppendAll(index.Contents(), values[i..]) == AppendAll(old(index.Contents()), values)
        invariant old(index.Valid()) ==> index.Valid()
      {
        var inserted := index.Append(values[i]);
        if !inserted {
          return;
        }
        i := i + 1;
      }
    }

    method AppendTypes(values: seq<Option<Definition>>)
      requires Valid()
      modifies attributeTypes
      ensures Valid() && SameParts()
      ensures View() == old(View()).(attributeTypes := AppendAll(old(attributeTypes.Contents()), values))
    {
      AppendDefinitions(attributeTypes, values);
      assert SameRequests();
    }

    method AppendClasses(values: seq<Option<Definition>>)
      requires Valid()
      modifies objectClasses
      ensures Valid() && SameParts()
      ensures View() == old(View()).(objectClasses := AppendAll(old(objectClasses.Contents()), values))
    {
      AppendDefinitions(objectClasses, values);
      assert SameRequests();
    }

    method RunCallback(record: SearchRecord, entries: array<Option<int>>, a: Answer)
      requires Valid() && record.callback != NoCallback && !M.RunCallback(View(), record, a).overrun
      requires Entries.UpToNull(entries[..]) == a.entries
      modifies this`nReadRequests, this`nSearchRequests, this`history, this`schemaPathKnown
      modifies readRequests, searchRequests, callqueue, pool, attributeTypes, objectClasses
      ensures Valid() && View() == M.RunCallback(old(View()), record, a) && SameParts()
    {
      NoteFired(record, entries);
      match record.callback
      case PrintEntries =>
      case AppendAttributeTypes => AppendTypes(a.definitions);
      case AppendObjectClasses => AppendClasses(a.definitions);
      case RememberSchemaPath => RememberPath(a.definitions != []);
      case User(_) => PerformAll(a.calls);
    }

    method NoteFired(record: SearchRecord, entries: array<Option<int>>)
      requires Valid()
      modifies this`history
      ensures Valid() && SameParts()
      ensures View() == old(View()).(history := Fire(old(history), record, Entries.UpToNull(entries[..])))
    {
      history := Fire(history, record, Entries.UpToNull(entries[..]));
    }

    method RememberPath(found: bool)
      requires Valid()
      modifies this`schemaPathKnown
      ensures Valid() && View() == old(View()).(schemaPathKnown := old(schemaPathKnown) || found) && SameParts()
    {
      schemaPathKnown := schemaPathKnown || found;
    }

    method Accuse(fault: Fault)
      requires Valid()
      modifies this`history
      ensures Valid() && View() == Blame(old(View()), fault) && SameParts()
    {
      history := history.(faults := history.faults + {fault});
    }

    method FindSearch(msgid: int) returns (i: nat)
      requires Valid()
      ensures i <= nSearchRequests
      ensures FindRecord(View().registry, msgid) == if i < nSearchRequests then Some(i) else None
    {
      ghost var registry := View().registry;
      i := 0;
      while i < nSearchRequests && searchRequests[i].msgid != msgid
        invariant 0 <= i <= nSearchRequests
        invariant forall k | 0 <= k < i :: registry[k].msgid != msgid
      {
        i := i + 1;
      }
      if i < nSearchRequests { assert registry[i].msgid == msgid; }
    }

    method OnSearch(msgid: int, a: Answer)
      requires Valid() && !M.OnSearch(View(), msgid, a).overrun
      modifies this`nReadRequests, this`nSearchRequests, this`history, this`schemaPathKnown
      modifies readRequests, searchRequests, callqueue, pool, attributeTypes, objectClasses
      ensures Valid() && View() == M.OnSearch(old(View()), msgid, a) && SameParts()
    {
      if a.kind == SearchEntry || a.kind == SearchResult {
        OnSearchAnswer(msgid, a);
      } else {
        Accuse(UnansweredSearch);
        if a.kind != SearchReference {
          PerformAll(a.calls);
        }
      }
    }

    /** The search's record is looked up by message id; its callback receives the entries of the
        message chain and may make further calls before the record is removed. */
    method OnSearchAnswer(msgid: int, a: Answer)
      requires Valid() && !M.OnSearch(View(), msgid, a).overrun && (a.kind == SearchEntry || a.kind == SearchResult)
      modifies this`nReadRequests, this`nSearchRequests, this`history, this`schemaPathKnown
      modifies readRequests, searchRequests, callqueue, pool, attributeTypes, objectClasses
      ensures Valid() && View() == M.OnSearch(old(View()), msgid, a) && SameParts()
    {
      var i := FindSearch(msgid);
      if i == nSearchRequests {
        PerformAll(a.calls);
      } else {
        assert searchRequests[i] == View().registry[i];
        if searchRequests[i].callback == NoCallback {
          return;
        }
        FireAndRemove(i, a);
      }
    }

    method FireAndRemove(i: nat, a: Answer)
      requires Valid() && i < nSearchRequests && searchRequests[i].callback != NoCallback
      requires !M.RunCallback(View(), searchRequests[i], a).overrun
      modifies this`nReadRequests, this`nSearchRequests, this`history, this`schemaPathKnown
      modifies readRequests, searchRequests, callqueue, pool, attributeTypes, objectClasses
      ensures Valid() && SameParts()
      ensures var w := M.RunCallback(old(View()), old(searchRequests[i]), a);
        View() == w.(registry := RemoveRecord(w.registry, w.nRead, i))
    {
      assert searchRequests[i] == View().registry[i];
      var entries := Entries.Collect(a.entries);
      assert SameRequests();
      RunCallback(searchRequests[i], entries, a);
      assert |View().registry| == nSearchRequests;
      RemoveSearchRequest(i);
    }

    method ProcessAttribute(name: string) returns (recognised: bool)
      modifies this`directoryType
      ensures recognised == RecogniseAttribute(name).Some?
      ensures directoryType == if recognised then RecogniseAttribute(name).value else old(directoryType)
    {
      if name == "isGlobalCatalogReady" {
        directoryType := ActiveDirectory;
        return true;
      }
      if name == "objectClass" {
        directoryType := OpenLdap;
        return true;
      }
      return false;
    }

    method ParseDirectory(messages: seq<seq<string>>)
      modifies this`directoryType
      ensures directoryType ==
        var found := Recognise(messages, old(directoryType)); if found == Uninitialized then Unknown else found
      ensures SaysActiveDirectory(messages) ==> directoryType == ActiveDirectory
      ensures SaysOpenLdap(messages) ==> directoryType == OpenLdap
      ensures AllSilent(messages) ==>
        directoryType == if old(directoryType) == Uninitialized then Unknown else old(directoryType)
    {
      DetectedType(messages, directoryType);
      for m := 0 to |messages|
        invariant directoryType == Recognise(messages[..m], old(directoryType))
      {
        var names := messages[m];
        var i, recognised := 0, false;
        while i < |names| && !recognised
          invariant 0 <= i <= |names|
          invariant !recognised ==> RecogniseMessage(names) == RecogniseMessage(names[i..])
          invariant !recognised ==> directoryType == Recognise(messages[..m], old(directoryType))
          invariant recognised ==> RecogniseMessage(names) == Some(directoryType)
          decreases |names| - i, !recognised
        {
          recognised := ProcessAttribute(names[i]);
          if !recognised { i := i + 1; }
        }
        assert messages[..m + 1][..m] == messages[..m];
      }
      assert messages[..|messages|] == messages;
      if directoryType == Uninitialized {
        directoryType := Unknown;
      }
    }

    method OnDirectory(a: Answer)
      requires Valid() && !M.OnDirectory(View(), a).overrun
      modifies this`directoryType
      modifies this`nReadRequests, this`nSearchRequests, this`history, this`schemaPathKnown
      modifies readRequests, searchRequests, callqueue, pool, attributeTypes, objectClasses
      ensures Valid() && View() == M.OnDirectory(old(View()), a) && SameParts()
    {
      match a.kind
      case SearchEntry | SearchResult => DetectType(a.attributes);
      case SearchReference =>
      case _ => PerformAll(a.calls);
    }

    method DetectType(messages: seq<seq<string>>)
      requires Valid()
      modifies this`directoryType
      ensures Valid() && SameParts()
      ensures var found := Recognise(messages, old(directoryType));
        View() == old(View()).(directoryType := if found == Uninitialized then Unknown else found)
    {
      ParseDirectory(messages);
    }

    method OnTls(a: Answer)
      requires Valid()
      modifies this`state, this`history
      ensures Valid() && View() == M.OnTls(old(View()), a) && SameParts()
    {
      if a.kind != ExtendedResponse {
        return;
      }
      if !a.tlsInstalled {
        if a.optionsReadable {
          state := Error;
        }
        return;
      }
      state := TransportReady;
      history := history.(tlsUp := true);
    }

    /** An ldap_sasl_bind or ldap_sasl_interactive_bind call goes out. */
    method CallBind()
      requires Valid()
      modifies this`history
      ensures Valid() && View() == CallsBind(old(View())) && SameParts()
    {
      history := history.(bareBind := history.bareBind || (useStartTls && !history.tlsUp));
    }

    method BindNotInProgress(a: Answer)
      requires Valid()
      modifies this`state
      ensures Valid() && View() == M.BindNotInProgress(old(View()), a) && SameParts()
    {
      if a.optionsReadable && a.resultCode != 0 {
        state := Error;
      }
    }

    method ContinueBind(next: int)
      requires Valid() && nReadRequests < MAX_REQUESTS
      modifies this`msgid, this`nReadRequests, this`history, readRequests, callqueue, pool
      ensures Valid() && View() == M.Enqueue(CallsBind(old(View())), Request(next, BindOnRead)) && SameParts()
      ensures msgid == next
    {
      CallBind();
      msgid := next;
      assert View() == CallsBind(old(View()));
      Enqueue(msgid, BindOnRead);
    }

    method OnBind(a: Answer)
      requires Valid() && !M.OnBind(View(), a).overrun
      modifies this`state, this`msgid, this`nReadRequests, this`history, readRequests, callqueue, pool
      ensures Valid() && View() == M.OnBind(old(View()), a) && SameParts()
      ensures msgid == if bindType == Interactive && a.kind == BindResponse && a.sasl.SaslInProgress? then a.sasl.msgid else old(msgid)
    {
      if a.kind != BindResponse {
        return;
      }
      if bindType == Simple {
        BindNotInProgress(a);
      } else if a.sasl.SaslInProgress? {
        ContinueBind(a.sasl.msgid);
      } else {
        CallBind();
        if a.sasl.SaslSuccess? { Enter(Bound); } else { BindNotInProgress(a); }
      }
    }

    method Hear(request: Request, a: Answer)
      requires Valid()
      modifies this`history
      ensures Valid() && View() == Heard(old(View()), request, a) && SameParts()
    {
      history := M.Hear(history, request.msgid, a.kind);
    }

    method Dispatch(request: Request, a: Answer)
      requires Valid() && !M.Dispatch(View(), request, a).overrun
      modifies this`state, this`directoryType, this`msgid
      modifies this`nReadRequests, this`nSearchRequests, this`history, this`schemaPathKnown
      modifies readRequests, searchRequests, callqueue, pool, attributeTypes, objectClasses
      ensures Valid() && View() == M.Dispatch(old(View()), request, a) && SameParts()
      ensures msgid ==
        if request.onRead == BindOnRead && bindType == Interactive && a.kind == BindResponse && a.sasl.SaslInProgress?
        then a.sasl.msgid else request.msgid
    {
      msgid := request.msgid;
      assert View() == old(View());
      match request.onRead
      case NoHandler =>
      case StartTlsOnRead => OnTls(a);
      case BindOnRead => OnBind(a);
      case DirectoryOnRead => OnDirectory(a);
      case SearchOnRead => OnSearch(request.msgid, a);
      case OperationOnRead => PerformAll(a.calls);
    }

    method OptionalTransitionOnError()
      requires Valid()
      modifies this`state
      ensures Valid() && View() == M.OptionalTransitionOnError(old(View())) && SameParts()
    {
      if state == TlsNegotiation || state == BindInProgress {
        state := Error;
      }
    }

    /* ---- The read event ---- */

    /** The oldest request; its slot is recovered from its node. */
    method PopRequest() returns (slot: nat)
      requires Valid() && callqueue.nodes != []
      modifies callqueue
      ensures Valid() && SameParts() && slot < MAX_REQUESTS && readRequests[slot] == old(View()).queue[0]
      ensures View() == old(View()).(queue := old(View()).queue[1..])
    {
      ghost var lo, queue := nReadRequests - |callqueue.nodes|, LinkedRequests();
      assert callqueue.nodes[0] == nodes[lo];
      var top := Pop(callqueue);
      slot := top.slot;
      assert readRequests[slot] == queue[0];
      assert LinkedRequests() == queue[1..];
    }

    /** The error branch: the request is dropped, or an unreadable option ends the drain. */
    method GiveUp(slot: nat, reply: Reply, ghost d: Drain) returns (aborted: bool)
      requires Valid() && d.v.queue != [] && slot < MAX_REQUESTS && readRequests[slot] == d.v.queue[0]
      requires View() == d.v.(queue := d.v.queue[1..]) && reply.Failed?
      modifies this`state, this`history
      ensures Valid() && SameParts() && View() == DrainStep(d, reply).v && aborted == DrainStep(d, reply).aborted
    {
      if !reply.codeReadable || !reply.messageReadable {
        history := Forgotten(View(), d.pending + [d.v.queue[0]]).history;
        return true;
      }
      if readRequests[slot].onRead == SearchOnRead { Accuse(DroppedSearch); }
      OptionalTransitionOnError();
      return false;
    }

    /** One turn of the drain, for the request in `slot`, which has just been popped. */
    method Process(slot: nat, reply: Reply, pending: array<Copied>, count: nat, ghost d: Drain)
      returns (newCount: nat, aborted: bool)
      requires Valid() && d.v.queue != [] && slot < MAX_REQUESTS && readRequests[slot] == d.v.queue[0]
      requires View() == d.v.(queue := d.v.queue[1..]) && !DrainStep(d, reply).v.overrun
      requires pending.Length == MAX_REQUESTS && count == |d.pending| < MAX_REQUESTS && Requests(pending, count) == d.pending
      modifies this`state, this`directoryType, this`msgid, pending
      modifies this`nReadRequests, this`nSearchRequests, this`history, this`schemaPathKnown
      modifies readRequests, searchRequests, callqueue, pool, attributeTypes, objectClasses
      ensures Valid() && SameParts()
      ensures var e := DrainStep(d, reply);
        && View() == e.v && aborted == e.aborted
        && newCount == |e.pending| && Requests(pending, newCount) == e.pending
    {
      newCount, aborted := count, false;
      match reply
      case Failed(_, _) => aborted := GiveUp(slot, reply, d);
      case NotYet =>
        pending[count] := Copied(readRequests[slot], nodes[slot].prev);
        newCount := count + 1;
      case Answered(answer) =>
        Hear(readRequests[slot], answer);
        Dispatch(readRequests[slot], answer);
    }

    /** Copies a request back into a slot, stale link and all, and links the slot. */
    method Restore(slot: nat, copied: Copied)
      requires Shape() && callqueue.Valid() && slot < MAX_REQUESTS && |callqueue.nodes| < MAX_REQUESTS
      requires nodes[slot] !in callqueue.nodes && forall n | n in callqueue.nodes :: n in pool
      modifies readRequests, callqueue, pool
      ensures callqueue.Valid() && callqueue.nodes == old(callqueue.nodes) + [nodes[slot]]
      ensures forall k | 0 <= k < MAX_REQUESTS ::
        readRequests[k] == if k == slot then copied.request else old(readRequests[k])
    {
      readRequests[slot] := copied.request;
      nodes[slot].prev := copied.prev;
      Link(slot);
    }

    /** The pending requests take the lowest slots, in order. */
    method Relink(pending: array<Copied>, count: nat)
      requires Shape() && callqueue.Valid() && callqueue.nodes == [] && count <= MAX_REQUESTS == pending.Length
      modifies readRequests, callqueue, pool
      ensures callqueue.Valid() && |callqueue.nodes| == count
      ensures forall k | 0 <= k < count :: callqueue.nodes[k] == nodes[k] && readRequests[k] == pending[k].request
    {
      for i := 0 to count
        invariant callqueue.Valid() && |callqueue.nodes| == i
        invariant forall k | 0 <= k < i :: callqueue.nodes[k] == nodes[k] && readRequests[k] == pending[k].request
      {
        assert nodes[i] !in callqueue.nodes by { NextNodeIsFree(nodes, 0, i, callqueue.nodes); }
        Restore(i, pending[i]);
      }
    }

    /** The rewind of the counter after the loop. */
    method Rewind(pending: array<Copied>, count: nat)
      requires Valid() && callqueue.nodes == [] && count <= MAX_REQUESTS == pending.Length
      modifies this`nReadRequests, readRequests, callqueue, pool
      ensures Valid() && SameParts()
      ensures View() == old(View()).(queue := Requests(pending, count), nRead := count)
    {
      RewindSlots(pending, count);
      assert Registry() == old(Registry());
    }

    method RewindSlots(pending: array<Copied>, count: nat)
      requires Valid() && callqueue.nodes == [] && count <= MAX_REQUESTS == pending.Length
      modifies this`nReadRequests, readRequests, callqueue, pool
      ensures Valid() && nReadRequests == count && LinkedRequests() == Requests(pending, count)
    {
      nReadRequests := 0;
      Relink(pending, count);
      nReadRequests := count;
    }

    /** One turn of the loop, seen as one step of the drain. */
    method Turn(script: seq<Reply>, taken: nat, pending: array<Copied>, count: nat, ghost d: Drain)
      returns (newCount: nat, aborted: bool, ghost e: Drain)
      requires taken == |d.popped|
      requires Valid() && View() == d.v && InWindow(d) && !Finished(d) && !Drained(d, script).v.overrun
      requires pending.Length == MAX_REQUESTS && count == |d.pending| <= MAX_REQUESTS && Requests(pending, count) == d.pending
      modifies this`state, this`directoryType, this`msgid, pending
      modifies this`nReadRequests, this`nSearchRequests, this`history, this`schemaPathKnown
      modifies readRequests, searchRequests, callqueue, pool, attributeTypes, objectClasses
      ensures Valid() && SameParts() && View() == e.v && InWindow(e) && aborted == e.aborted
      ensures Drained(d, script) == Drained(e, script) && |e.popped| == |d.popped| + 1
      ensures aborted ==> Drained(e, script) == e
      ensures newCount == |e.pending| <= MAX_REQUESTS && Requests(pending, newCount) == e.pending
      ensures MAX_REQUESTS - e.v.nRead + |e.v.queue| < MAX_REQUESTS - d.v.nRead + |d.v.queue|
    {
      e := DrainTurns(d, script);
      var slot := PopRequest();
      newCount, aborted := Process(slot, ReplyAt(script, taken), pending, count, d);
    }

    /** The loop of the read event.  Unless it returns early the queue is empty in the end. */
    method DrainQueue(script: seq<Reply>, pending: array<Copied>, ghost start: Drain)
      returns (count: nat, aborted: bool, ghost d: Drain)
      requires Valid() && View() == start.v && InWindow(start) && start.popped == [] && start.pending == []
      requires !start.aborted && !Drained(start, script).v.overrun && pending.Length == MAX_REQUESTS
      modifies this`state, this`directoryType, this`msgid, pending
      modifies this`nReadRequests, this`nSearchRequests, this`history, this`schemaPathKnown
      modifies readRequests, searchRequests, callqueue, pool, attributeTypes, objectClasses
      ensures Valid() && SameParts() && View() == d.v && d == Drained(start, script) && aborted == d.aborted && InWindow(d)
      ensures count == |d.pending| <= MAX_REQUESTS && Requests(pending, count) == d.pending
      ensures !aborted ==> callqueue.nodes == []
    {
      var taken := 0;
      count, aborted, d := 0, false, start;
      while !IsEmpty(callqueue) && !aborted
        invariant Valid() && SameParts() && View() == d.v && aborted == d.aborted && InWindow(d)
        invariant Drained(d, script) == Drained(start, script) && (aborted ==> Drained(d, script) == d)
        invariant count == |d.pending| <= MAX_REQUESTS && Requests(pending, count) == d.pending
        invariant taken == |d.popped|
        decreases MAX_REQUESTS - d.v.nRead + |d.v.queue|
      {
        count, aborted, d := Turn(script, taken, pending, count, d);
        taken := taken + 1;
      }
    }

    method OnRead(script: seq<Reply>)
      requires Valid() && !OnReadEvent(View(), script).overrun
      modifies this`state, this`directoryType, this`msgid
      modifies this`nReadRequests, this`nSearchRequests, this`history, this`schemaPathKnown
      modifies readRequests, searchRequests, callqueue, pool, attributeTypes, objectClasses
      ensures Valid() && View() == OnReadEvent(old(View()), script) && SameParts()
    {
      var pending: array<Copied> := NewArray(MAX_REQUESTS);
      DrainAndRewind(script, pending);
    }

    method DrainAndRewind(script: seq<Reply>, pending: array<Copied>)
      requires Valid() && !OnReadEvent(View(), script).overrun && pending.Length == MAX_REQUESTS
      modifies this`state, this`directoryType, this`msgid, pending
      modifies this`nReadRequests, this`nSearchRequests, this`history, this`schemaPathKnown
      modifies readRequests, searchRequests, callqueue, pool, attributeTypes, objectClasses
      ensures Valid() && View() == OnReadEvent(old(View()), script) && SameParts()
    {
      ghost var start := DrainStarts(View(), script);
      var count, aborted;
      ghost var d;
      count, aborted, d := DrainQueue(script, pending, start);
      if !aborted {
        Rewind(pending, count);
      }
    }

    /* ---- Configuring and the state machine ---- */

    /** The resets of connection_configure: new queue, new tables, counters at zero, and the slots
        and records cleared. */
    method Reset()
      requires Valid()
      modifies this`directoryType, this`nReadRequests, this`nSearchRequests, this`nReconnectAttempts, this`callqueue
      modifies this`attributeTypes, this`objectClasses, this`handlersInstalled, this`resets, this`history
      modifies readRequests, searchRequests, pool
      ensures Valid() && View() == M.Reset(old(View()))
      ensures fresh(callqueue) && fresh(attributeTypes) && fresh(objectClasses)
      ensures forall i | 0 <= i < |nodes| :: ClearedSlot(i)
    {
      NewParts();
      ClearFlags();
      ForgetAttempts();
      ClearHistory();
      ClearRequests();
    }

    method NewParts()
      requires Valid()
      modifies this`callqueue, this`nReadRequests, this`nSearchRequests, this`attributeTypes, this`objectClasses
      ensures Valid() && nReadRequests == nSearchRequests == 0
      ensures fresh(callqueue) && fresh(attributeTypes) && fresh(objectClasses)
      ensures View() == old(View()).(
        queue := [], nRead := 0, registry := [], attributeTypes := EMPTY_TABLE, objectClasses := EMPTY_TABLE)
    {
      NewAttributeTypes();
      NewObjectClasses();
      NewQueue();
    }

    method NewAttributeTypes()
      requires Valid()
      modifies this`attributeTypes
      ensures Valid() && SameRequests() && callqueue == old(callqueue) && objectClasses == old(objectClasses)
      ensures fresh(attributeTypes) && View() == old(View()).(attributeTypes := EMPTY_TABLE)
    {
      attributeTypes := new Index();
    }

    method NewObjectClasses()
      requires Valid()
      modifies this`objectClasses
      ensures Valid() && SameRequests() && callqueue == old(callqueue) && attributeTypes == old(attributeTypes)
      ensures fresh(objectClasses) && View() == old(View()).(objectClasses := EMPTY_TABLE)
    {
      objectClasses := new Index();
    }

    method NewQueue()
      requires Valid()
      modifies this`callqueue, this`nReadRequests, this`nSearchRequests
      ensures Valid() && nReadRequests == nSearchRequests == 0
      ensures attributeTypes == old(attributeTypes) && objectClasses == old(objectClasses) && fresh(callqueue)
      ensures View() == old(View()).(queue := [], nRead := 0, registry := [])
    {
      callqueue := new Queue(MAX_REQUESTS);
      nReadRequests, nSearchRequests := 0, 0;
      assert LinkedRequests() == [] && Registry() == [];
    }

    method ClearFlags()
      requires Valid()
      modifies this`directoryType, this`handlersInstalled
      ensures Valid() && SameParts()
      ensures View() == old(View()).(directoryType := Uninitialized, handlersInstalled := false)
    {
      directoryType, handlersInstalled := Uninitialized, false;
    }

    /** A configure that resets starts the bookkeeping afresh too. */
    method ClearHistory()
      requires Valid()
      modifies this`history
      ensures Valid() && SameParts() && View() == old(View()).(history := NO_HISTORY)
    {
      history := NO_HISTORY;
    }

    method ClearRequests()
      requires Valid() && nReadRequests == nSearchRequests == 0
      modifies readRequests, searchRequests, pool
      ensures Valid() && View() == old(View()) && SameParts()
      ensures forall i | 0 <= i < |nodes| :: ClearedSlot(i)
    {
      for i := 0 to |nodes|
        invariant callqueue.Valid() && callqueue.nodes == []
        invariant forall k | 0 <= k < i :: readRequests[k] == Request(-1, NoHandler) && nodes[k].prev == null
        invariant forall k | 0 <= k < i :: searchRequests[k].msgid == -1 && searchRequests[k].callback == NoCallback
      {
        readRequests[i] := Request(-1, NoHandler);
        nodes[i].prev := null;
        searchRequests[i] := searchRequests[i].(msgid := -1, callback := NoCallback);
      }
      assert LinkedRequests() == [] && Registry() == [];
    }

    /** A search made by the library itself, if the server call succeeds. */
    method SchemaSearch(outcome: SendOutcome, callback: Callback) returns (ok: bool)
      requires Valid() && !M.SchemaSearch(View(), outcome, callback).0.overrun
      modifies this`nReadRequests, this`nSearchRequests, this`history, readRequests, searchRequests, callqueue, pool
      ensures Valid() && (View(), ok) == M.SchemaSearch(old(View()), outcome, callback) && SameParts()
    {
      if outcome.NotSent? {
        return false;
      }
      assert |View().registry| == nSearchRequests;
      var rc := Search(outcome.msgid, callback, SCHEMA_DATA);
      ok := rc == RcSuccess;
    }

    method LoadTables(t: Tick) returns (rc: ReturnCode)
      requires Valid() && !M.LoadTables(View(), t).0.overrun
      modifies this`nReadRequests, this`nSearchRequests, this`history, readRequests, searchRequests, callqueue, pool
      ensures Valid() && (View(), rc) == M.LoadTables(old(View()), t) && SameParts()
    {
      var ok := SchemaSearch(t.firstSearch, AppendAttributeTypes);
      if !ok {
        return RcFailure;
      }
      ok := SchemaSearch(t.secondSearch, AppendObjectClasses);
      rc := if ok then RcSuccess else RcFailure;
    }

    method LoadSchema(t: Tick) returns (rc: ReturnCode)
      requires Valid() && !M.LoadSchema(View(), t).0.overrun
      modifies this`nReadRequests, this`nSearchRequests, this`history, readRequests, searchRequests, callqueue, pool
      ensures Valid() && (View(), rc) == M.LoadSchema(old(View()), t) && SameParts()
    {
      match directoryType
      case OpenLdap => rc := LoadTables(t);
      case ActiveDirectory =>
        if schemaPathKnown {
          rc := LoadTables(t);
        } else {
          var ok := SchemaSearch(t.firstSearch, RememberSchemaPath);
          rc := if ok then RcInProgress else RcFailure;
        }
      case FreeIpa => rc := RcFailure;
      case Unknown | Uninitialized => rc := RcSuccess;
    }

    /** csm_set_state. */
    method Enter(next: State)
      requires Valid()
      modifies this`state
      ensures Valid() && View() == old(View()).(state := next) && SameParts()
    {
      state := next;
    }

    /** Registers the read event unless the flag says so already. */
    method InstallHandlers(possible: bool) returns (installed: bool)
      requires Valid()
      modifies this`handlersInstalled, this`listening
      ensures Valid() && SameParts() && installed == (old(handlersInstalled) || possible)
      ensures View() == if installed then Installed(old(View())) else old(View())
    {
      if !handlersInstalled {
        if !possible {
          return false;
        }
        handlersInstalled, listening := true, true;
      }
      return true;
    }

    method StepInit(t: Tick)
      requires Valid() && !M.StepInit(View(), t).overrun
      modifies this`state, this`nReadRequests, this`handlersInstalled, this`listening, this`history
      modifies readRequests, callqueue, pool
      ensures Valid() && View() == M.StepInit(old(View()), t) && SameParts()
    {
      if !useStartTls {
        Enter(TransportReady);
        return;
      }
      var sent := StartTls(t);
      Enter(if sent then TlsNegotiation else Error);
    }

    method StartTls(t: Tick) returns (sent: bool)
      requires Valid() && (t.tls.Sent? && CanInstall(View(), t) ==> nReadRequests < MAX_REQUESTS)
      modifies this`nReadRequests, this`handlersInstalled, this`listening, this`history, readRequests, callqueue, pool
      ensures Valid() && SameParts() && sent == (t.tls.Sent? && CanInstall(old(View()), t))
      ensures View() ==
        if sent then M.Enqueue(Installed(old(View())), Request(t.tls.msgid, StartTlsOnRead)) else old(View())
    {
      if t.tls.NotSent? {
        return false;
      }
      sent := InstallHandlers(t.installs);
      if sent {
        Enqueue(t.tls.msgid, StartTlsOnRead);
      }
    }

    method StepBind(t: Tick) returns (rc: ReturnCode)
      requires Valid() && !M.StepBind(View(), t).0.overrun
      modifies this`state, this`nReadRequests, this`handlersInstalled, this`listening, this`history
      modifies readRequests, callqueue, pool
      ensures Valid() && (View(), rc) == M.StepBind(old(View()), t) && SameParts()
    {
      rc := SendBind(t);
      Enter(match rc
        case RcSuccess => DetectDirectory
        case RcInProgress => BindInProgress
        case RcRepeat => TransportReady
        case RcFailure => Error);
    }

    method SendBind(t: Tick) returns (rc: ReturnCode)
      requires Valid() && !M.SendBind(View(), t).overrun
      modifies this`nReadRequests, this`handlersInstalled, this`listening, this`history, readRequests, callqueue, pool
      ensures Valid() && View() == M.SendBind(old(View()), t) && rc == BindCode(old(View()), t) && SameParts()
    {
      CallBind();
      match t.bind {
        case Connecting => return RcRepeat;
        case BindRefused => return RcFailure;
        case BindContinues(_) => if bindType == Simple { return RcFailure; }
        case BindSent(_) =>
      }
      var installed := InstallHandlers(t.installs);
      if !installed {
        return RcFailure;
      }
      Enqueue(t.bind.msgid, BindOnRead);
      rc := if t.bind.BindContinues? then RcInProgress else RcSuccess;
    }

    method StepDetect(t: Tick)
      requires Valid() && !M.StepDetect(View(), t).overrun
      modifies this`state, this`nReadRequests, this`history, readRequests, callqueue, pool
      ensures Valid() && View() == M.StepDetect(old(View()), t) && SameParts()
    {
      if directoryType != Uninitialized {
        Enter(RequestSchema);
        return;
      }
      if t.directory.Sent? {
        Enqueue(t.directory.msgid, DirectoryOnRead);
      }
      Enter(if t.directory.Sent? then DetectDirectory else Error);
    }

    method StepSchema(t: Tick)
      requires Valid() && !M.StepSchema(View(), t).overrun
      modifies this`state, this`nReadRequests, this`nSearchRequests, this`history
      modifies readRequests, searchRequests, callqueue, pool
      ensures Valid() && View() == M.StepSchema(old(View()), t) && SameParts()
    {
      var rc := LoadSchema(t);
      Enter(if rc == RcSuccess then CheckSchema else if rc == RcInProgress then RequestSchema else Error);
    }

    /** Closing, configuring, and on to INIT whatever configuring returned. */
    method StepError(t: Tick)
      requires Valid()
      modifies this, readRequests, searchRequests, pool
      ensures Valid() && View() == M.StepError(old(View()), t)
      ensures SameParts() || (fresh(callqueue) && fresh(attributeTypes) && fresh(objectClasses))
    {
      Close();
      if nReconnectAttempts < MAX_RECONNECT_ATTEMPTS {
        match t.configure {
          case Completed => Reset();
          case Incomplete => FailToConfigure(true);
          case Unreachable => FailToConfigure(false);
        }
        Reconnect();
      }
    }

    /** Deletes the read event. */
    method Close()
      requires Valid()
      modifies this`listening
      ensures Valid() && View() == old(View()).(listening := false) && SameParts()
    {
      listening := false;
    }

    method FailToConfigure(incomplete: bool)
      requires Valid()
      modifies this`handlersInstalled, this`history
      ensures Valid() && View() == KeepsRequests(old(View()), incomplete) && SameParts()
    {
      history := KeepsRequests(View(), incomplete).history;
      if incomplete {
        handlersInstalled := false;
      }
    }

    method Reconnect()
      requires Valid()
      modifies this`state, this`nReconnectAttempts, this`reconnects, this`history
      ensures Valid() && View() == Reconnected(old(View())) && SameParts()
    {
      CountReconnect();
      Enter(Init);
      AwaitTls();
    }

    method CountReconnect()
      requires Valid()
      modifies this`nReconnectAttempts, this`reconnects
      ensures Valid() && SameParts()
      ensures View() == old(View()).(
        reconnectAttempts := old(View()).reconnectAttempts + 1, reconnects := old(View()).reconnects + 1)
    {
      nReconnectAttempts, reconnects := nReconnectAttempts + 1, reconnects + 1;
    }

    /** With the new handle no handshake has succeeded and nothing has been asked. */
    method AwaitTls()
      requires Valid()
      modifies this`history
      ensures Valid() && SameParts()
      ensures View() == old(View()).(history := old(View()).history.(tlsUp := false, asked := map[], answered := {}))
    {
      history := history.(tlsUp := false, asked := map[], answered := {});
    }

    method NextState(t: Tick) returns (rc: ReturnCode)
      requires Valid() && !M.NextState(View(), t).0.overrun
      modifies this, readRequests, searchRequests, callqueue, pool
      ensures Valid() && (View(), rc) == M.NextState(old(View()), t)
      ensures SameParts() || (fresh(callqueue) && fresh(attributeTypes) && fresh(objectClasses))
    {
      if state == Error {
        StepError(t);
        rc := RcSuccess;
      } else {
        rc := StepForward(t);
      }
    }

    /** The states other than ERROR. */
    method StepForward(t: Tick) returns (rc: ReturnCode)
      requires Valid() && state != Error && !M.NextState(View(), t).0.overrun
      modifies this`state, this`nReadRequests, this`nSearchRequests, this`nReconnectAttempts, this`resets, this`history
      modifies this`handlersInstalled, this`listening, readRequests, searchRequests, callqueue, pool
      ensures Valid() && (View(), rc) == M.NextState(old(View()), t) && SameParts()
    {
      rc := RcSuccess;
      match state
      case Init => StepInit(t);
      case TransportReady => rc := StepBind(t);
      case DetectDirectory => StepDetect(t);
      case RequestSchema => StepSchema(t);
      case Running => ForgetAttempts();
      case TlsNegotiation | BindInProgress | Bound | CheckSchema => StepOn();
    }

    method ForgetAttempts()
      requires Valid()
      modifies this`nReconnectAttempts, this`resets
      ensures Valid() && View() == old(View()).(reconnectAttempts := 0, resets := old(resets) + 1) && SameParts()
    {
      nReconnectAttempts, resets := 0, resets + 1;
    }

    /** The states whose step makes no call. */
    method StepOn()
      requires Valid() && (state == TlsNegotiation || state == BindInProgress || state == Bound || state == CheckSchema)
      modifies this`state
      ensures Valid() && SameParts()
      ensures View() == old(View()).(state :=
        match old(state)
        case Bound => DetectDirectory
        case CheckSchema => if SchemaReady(old(View())) then Running else CheckSchema
        case waiting => waiting)
    {
      if state == Bound {
        Enter(DetectDirectory);
      } else if state == CheckSchema {
        if directoryType != OpenLdap || (|objectClasses.byOid| > 0 && |attributeTypes.byOid| > 0) {
          Enter(Running);
        }
      }
    }

    /* ---- Runs ---- */

    method Act(action: Action)
      requires Valid() && !M.Step(View(), action).overrun
      modifies this, readRequests, searchRequests, callqueue, pool, attributeTypes, objectClasses
      ensures Valid() && View() == M.Step(old(View()), action)
      ensures SameParts() || (fresh(callqueue) && fresh(attributeTypes) && fresh(objectClasses))
    {
      match action
      case Timer(tick) => var rc := NextState(tick);
      case ReadEvent(script) => if listening { OnRead(script); }
      case ApiCall(call) => Perform(call);
      case Break => state := Error;
    }

    /** Any run of timer steps, read events, API calls and breakages: the object goes through the
        states of the value model, so what is proved of every run there holds here. */
    method Drive(actions: seq<Action>)
      requires Valid() && !M.Run(View(), actions).overrun
      modifies this, readRequests, searchRequests, callqueue, pool, attributeTypes, objectClasses
      ensures Valid() && View() == M.Run(old(View()), actions)
    {
      ghost var start := View();
      var i := 0;
      while i < |actions|
        invariant 0 <= i <= |actions| && Valid() && View() == M.Run(start, actions[..i])
        invariant SameParts() || (fresh(callqueue) && fresh(attributeTypes) && fresh(objectClasses))
      {
        RunUnfolds(start, actions, i);
        if M.Run(start, actions[..i + 1]).overrun { OverrunStays(start, actions, i + 1); }
        Act(actions[i]);
        i := i + 1;
      }
      assert actions[..i] == actions;
    }
  }
}
