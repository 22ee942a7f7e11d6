/** What every reachable state of a connection keeps, and the run-level guarantees that follow. */
module Invariants {
  import opened Model
  import opened Directory

  /* `held` is the sequence of live requests: the queue, and inside a drain also the requests found
     pending so far and the one being dispatched. */

  function Handshakes(held: seq<Request>): nat {
    if held == [] then 0 else Handshakes(held[..|held| - 1]) + (if IsHandshake(held[|held| - 1]) then 1 else 0)
  }

  /** One handshake at a time: a TLS or bind request in flight, or the state that may send one. */
  ghost predicate OneHandshake(v: View, held: seq<Request>) {
    KeptHandshake !in v.history.faults ==>
      Handshakes(held) + (if v.state == Init || v.state == TransportReady then 1 else 0) <= 1
  }

  /** With StartTLS demanded, nothing that can bind exists before the handshake has succeeded, or it
      waits where no read event reaches it. */
  ghost predicate TlsGuard(v: View, held: seq<Request>) {
    v.useStartTls && KeptBind !in v.history.faults ==>
      && !v.history.bareBind
      && (v.bindType == Interactive ==>
            forall r | r in held :: r.onRead == BindOnRead ==> v.handlersInstalled && (v.history.tlsUp || !v.listening))
  }

  /** libldap and the server have kept to the protocol. */
  ghost predicate Conforming(h: History) { WrongId !in h.faults && WrongKind !in h.faults }

  /** With StartTLS demanded, and whatever a configure has left queued: only a state after the
      handshake may bind, and if libldap and the server conform, no bind has been asked of this handle
      before it. */
  ghost predicate AskedAfterTls(v: View) {
    v.useStartTls ==>
      && (v.state == TransportReady ==> v.history.tlsUp)
      && (Conforming(v.history) ==>
            && !v.history.bareBind
            && (v.history.tlsUp || forall id | id in v.history.asked :: v.history.asked[id] != BindOnRead))
  }

  predicate Later(state: State) { state == RequestSchema || state == CheckSchema || state == Running }

  ghost predicate DirectoryKnown(v: View) { Later(v.state) ==> v.directoryType != Uninitialized }

  ghost predicate AttemptsBounded(v: View) { 0 <= v.reconnectAttempts <= MAX_RECONNECT_ATTEMPTS }

  /** No fault that can separate a search record from its request. */
  ghost predicate Orderly(h: History) {
    ReusedId !in h.faults && DroppedSearch !in h.faults && UnansweredSearch !in h.faults && LostSearch !in h.faults
  }

  ghost predicate DistinctIds(records: seq<SearchRecord>) {
    forall i, j | 0 <= i < j < |records| :: records[i].msgid != records[j].msgid
  }

  ghost predicate Waiting(registry: seq<SearchRecord>, msgid: int) {
    exists i | 0 <= i < |registry| :: registry[i].msgid == msgid
  }

  ghost predicate Called(fired: seq<Firing>, msgid: int) {
    exists i | 0 <= i < |fired| :: fired[i].record.msgid == msgid
  }

  ghost predicate CalledOnce(fired: seq<Firing>) {
    forall i, j | 0 <= i < j < |fired| :: fired[i].record.msgid != fired[j].record.msgid
  }

  /** Every record entered is either still registered, with a live request of its own, or its
      callback has run, once.  While a callback runs, the record it belongs to (`firing`) is both. */
  ghost predicate Agreement(v: View, held: seq<Request>, firing: set<int>) {
    var h := v.history;
    Orderly(h) ==>
      && DistinctIds(v.registry) && CalledOnce(h.fired)
      && (forall k | 0 <= k < |v.registry| ::
            && Request(v.registry[k].msgid, SearchOnRead) in held
            && v.registry[k].msgid in h.registered && h.registered[v.registry[k].msgid] == v.registry[k]
            && v.registry[k].callback != NoCallback
            && (v.registry[k].msgid in firing || !Called(h.fired, v.registry[k].msgid)))
      && (forall k | 0 <= k < |h.fired| ::
            h.fired[k].record.msgid in h.registered && h.registered[h.fired[k].record.msgid] == h.fired[k].record)
      && (forall id | id in h.registered :: Waiting(v.registry, id) || Called(h.fired, id))
      && h.registered.Keys <= h.issued
  }

  ghost predicate Good(v: View, held: seq<Request>, firing: set<int> := {}) {
    && |held| <= v.nRead <= MAX_REQUESTS
    && OneHandshake(v, held) && TlsGuard(v, held) && AskedAfterTls(v)
    && DirectoryKnown(v) && AttemptsBounded(v) && Agreement(v, held, firing)
  }

  /* ---- Sequences of requests ---- */

  lemma {:induction false} HandshakesAppend(a: seq<Request>, b: seq<Request>)
    ensures Handshakes(a + b) == Handshakes(a) + Handshakes(b)
    decreases |b|
  {
    if b == [] {
      assert a + b == a;
    } else {
      HandshakesAppend(a, b[..|b| - 1]);
      assert (a + b)[..|a + b| - 1] == a + b[..|b| - 1];
    }
  }

  lemma OneRequest(r: Request)
    ensures Handshakes([r]) == if IsHandshake(r) then 1 else 0
  {
    assert [r][..0] == [];
  }

  lemma Regroup(r: Request, extra: seq<Request>, queue: seq<Request>)
    ensures [r] + extra + queue == [r] + (extra + queue)
  {
  }

  lemma HandshakesRotate(a: seq<Request>, r: Request, b: seq<Request>)
    ensures Handshakes([r] + a + b) == Handshakes(a + [r] + b)
  {
    HandshakesAppend([r], a);
    HandshakesAppend([r] + a, b);
    HandshakesAppend(a, [r]);
    HandshakesAppend(a + [r], b);
  }

  lemma MemberRotates(a: seq<Request>, r: Request, b: seq<Request>, q: Request)
    ensures q in [r] + a + b <==> q in a + [r] + b
  {
  }

  /** The order of the live requests makes no difference. */
  lemma GoodPermutes(v: View, held: seq<Request>, other: seq<Request>)
    requires |held| == |other| && Handshakes(held) == Handshakes(other)
    requires forall q :: q in held <==> q in other
    ensures Good(v, held) ==> Good(v, other)
  {
  }

  /** Where in the sequence a live request stands makes no difference. */
  lemma GoodRotates(v: View, a: seq<Request>, r: Request, b: seq<Request>)
    ensures Good(v, [r] + a + b) <==> Good(v, a + [r] + b)
  {
    var held, other := [r] + a + b, a + [r] + b;
    HandshakesRotate(a, r, b);
    forall q ensures q in held <==> q in other { MemberRotates(a, r, b, q); }
    GoodPermutes(v, held, other);
    GoodPermutes(v, other, held);
  }

  /** Requests that are done with may be forgotten, provided no record waits for them. */
  lemma GoodForgets(v: View, done: seq<Request>, rest: seq<Request>)
    requires Good(v, done + rest)
    requires Orderly(v.history) ==> forall r | r in done && r.onRead == SearchOnRead :: !Waiting(v.registry, r.msgid)
    ensures Good(v, rest)
  {
    HandshakesAppend(done, rest);
    if Orderly(v.history) {
      forall k | 0 <= k < |v.registry| ensures Request(v.registry[k].msgid, SearchOnRead) in rest {
        assert Request(v.registry[k].msgid, SearchOnRead) in done + rest;
      }
    }
  }

  /* ---- Requests and API calls ---- */

  /** Agreement is about records, live requests and the history of both. */
  lemma AgreementStands(v: View, w: View, held: seq<Request>, firing: set<int>)
    requires Agreement(v, held, firing) && w.registry == v.registry
    requires w.history.issued == v.history.issued && w.history.registered == v.history.registered
    requires w.history.fired == v.history.fired && (Orderly(w.history) ==> Orderly(v.history))
    ensures Agreement(w, held, firing)
  {
  }

  /** One more live request separates no record from its own. */
  lemma AgreementExtends(v: View, held: seq<Request>, r: Request, firing: set<int>)
    requires Agreement(v, held, firing) && !Enqueue(v, r).overrun
    ensures Agreement(Enqueue(v, r), held + [r], firing)
  {
  }

  lemma EnqueueGood(v: View, held: seq<Request>, r: Request, firing: set<int>)
    requires Good(v, held, firing) && !Enqueue(v, r).overrun && !IsHandshake(r)
    ensures Good(Enqueue(v, r), held + [r], firing)
  {
    EnqueueGuards(v, held, r);
    AskedMore(v, r);
    AgreementExtends(v, held, r, firing);
  }

  lemma EnqueueGuards(v: View, held: seq<Request>, r: Request)
    requires OneHandshake(v, held) && TlsGuard(v, held) && !IsHandshake(r)
    ensures OneHandshake(Enqueue(v, r), held + [r]) && TlsGuard(Enqueue(v, r), held + [r])
  {
    HandshakesAppend(held, [r]);
    OneRequest(r);
  }

  lemma AskedMore(v: View, r: Request)
    requires AskedAfterTls(v) && (v.useStartTls && r.onRead == BindOnRead ==> v.history.tlsUp)
    ensures AskedAfterTls(Enqueue(v, r))
  {
  }

  lemma IssueFresh(h: History, r: Request)
    requires Orderly(Issue(h, r))
    ensures Orderly(h) && r.msgid !in h.issued && r.msgid > 0
  {
  }

  lemma PerformGood(v: View, extra: seq<Request>, call: Call, firing: set<int>)
    requires Good(v, extra + v.queue, firing) && !Perform(v, call).overrun
    ensures var w := Perform(v, call); Good(w, extra + w.queue, firing)
  {
    match call
    case Operation(msgid) => LinkGood(v, extra, Request(msgid, OperationOnRead), firing);
    case Search(msgid, callback, userData) =>
      var r := Request(msgid, SearchOnRead);
      LinkGood(v, extra, r, firing);
      var w := Enqueue(v, r);
      assert w.queue[|w.queue| - 1] == r && r in extra + w.queue;
      RegisterGood(w, extra + w.queue, SearchRecord(msgid, CallbackOf(callback), userData), v, firing);
  }

  lemma LinkGood(v: View, extra: seq<Request>, r: Request, firing: set<int>)
    requires Good(v, extra + v.queue, firing) && !Enqueue(v, r).overrun && !IsHandshake(r)
    ensures var w := Enqueue(v, r);
      && Good(w, extra + w.queue, firing) && w.queue == v.queue + [r]
      && w.history.registered == v.history.registered && w.history.fired == v.history.fired && w.registry == v.registry
      && (Orderly(w.history) ==> r.msgid in w.history.issued && r.msgid !in v.history.registered)
  {
    EnqueueGood(v, extra + v.queue, r, firing);
    assert extra + (v.queue + [r]) == extra + v.queue + [r];
    if Orderly(Enqueue(v, r).history) { IssueFresh(v.history, r); }
  }

  lemma RegisterGood(w: View, held: seq<Request>, record: SearchRecord, v: View, firing: set<int>)
    requires Good(w, held, firing) && record.callback != NoCallback && Request(record.msgid, SearchOnRead) in held
    requires w.history.registered == v.history.registered && w.history.fired == v.history.fired && w.registry == v.registry
    requires Orderly(w.history) ==> record.msgid in w.history.issued && record.msgid !in v.history.registered
    ensures Good(Register(w, record), held, firing)
  {
    var x := Register(w, record);
    if Orderly(w.history) && x != w {
      var h := x.history;
      assert forall k | 0 <= k < |w.registry| :: w.registry[k].msgid in w.history.registered;
      assert forall k | 0 <= k < |h.fired| :: h.fired[k].record.msgid in w.history.registered;
      forall id | id in h.registered ensures Waiting(x.registry, id) || Called(h.fired, id) {
        if id == record.msgid {
          assert x.registry[|w.registry|].msgid == id;
        } else if Waiting(w.registry, id) {
          var i :| 0 <= i < |w.registry| && w.registry[i].msgid == id;
          assert x.registry[i].msgid == id;
        }
      }
    }
  }

  lemma {:induction false} PerformAllGood(v: View, extra: seq<Request>, calls: seq<Call>, firing: set<int>)
    requires Good(v, extra + v.queue, firing) && !PerformAll(v, calls).overrun
    ensures var w := PerformAll(v, calls); Good(w, extra + w.queue, firing)
    decreases |calls|
  {
    if calls != [] {
      PerformGood(v, extra, calls[0], firing);
      PerformAllGood(Perform(v, calls[0]), extra, calls[1..], firing);
    }
  }

  /* ---- The registry ---- */

  /** Records with live requests of their own are no more than the live requests. */
  lemma {:induction false} RegistryFits(records: seq<SearchRecord>, held: seq<Request>)
    requires DistinctIds(records)
    requires forall k | 0 <= k < |records| :: Request(records[k].msgid, SearchOnRead) in held
    ensures |records| <= |held|
    decreases |records|
  {
    if records != [] {
      var n := |records| - 1;
      var r := Request(records[n].msgid, SearchOnRead);
      var i :| 0 <= i < |held| && held[i] == r;
      var others := held[..i] + held[i + 1..];
      forall k | 0 <= k < n ensures Request(records[k].msgid, SearchOnRead) in others {
        var q := Request(records[k].msgid, SearchOnRead);
        var j :| 0 <= j < |held| && held[j] == q;
        assert others[if j < i then j else j - 1] == q;
      }
      RegistryFits(records[..n], others);
    }
  }

  function Without<T>(s: seq<T>, i: nat): seq<T>
    requires i < |s|
  {
    s[..i] + s[i + 1..]
  }

  /** When the index test of removal goes wrong, exactly: it deletes the wrong record if it fires
      for an index that is not the last. */
  lemma RemovalIsExactIff(registry: seq<SearchRecord>, nRead: nat, i: nat)
    requires i < |registry|
    ensures RemoveRecord(registry, nRead, i) == Without(registry, i) <==>
      i != nRead - 1 || forall k | i < k < |registry| :: registry[k] == CLEARED_RECORD
  {
    var cleared, without := registry[i := CLEARED_RECORD][..|registry| - 1], Without(registry, i);
    if cleared == without { AllCleared(registry, i, |registry| - 1); }
    if forall k | i < k < |registry| :: registry[k] == CLEARED_RECORD { assert cleared == without; }
  }

  lemma {:induction false} AllCleared(registry: seq<SearchRecord>, i: nat, n: nat)
    requires i <= n < |registry| && registry[i := CLEARED_RECORD][..|registry| - 1] == Without(registry, i)
    ensures forall k | i < k <= n :: registry[k] == CLEARED_RECORD
  {
    if i < n {
      AllCleared(registry, i, n - 1);
      assert registry[i := CLEARED_RECORD][..|registry| - 1][n - 1] == Without(registry, i)[n - 1];
    }
  }

  /** In an orderly state the test is harmless. */
  lemma RemovalIsExact(v: View, held: seq<Request>, firing: set<int>, i: nat)
    requires Good(v, held, firing) && Orderly(v.history) && i < |v.registry|
    ensures RemoveRecord(v.registry, v.nRead, i) == Without(v.registry, i)
  {
    RegistryFits(v.registry, held);
    if i == |v.registry| - 1 {
      assert v.registry[i := CLEARED_RECORD][..i] == v.registry[..i] == Without(v.registry, i);
    }
  }

  lemma StillHeld(registry: seq<SearchRecord>, r: Request, rest: seq<Request>, i: nat)
    requires DistinctIds(registry) && i < |registry| && registry[i].msgid == r.msgid
    requires forall k | 0 <= k < |registry| :: Request(registry[k].msgid, SearchOnRead) in [r] + rest
    ensures forall k | 0 <= k < |registry| - 1 ::
      && Without(registry, i)[k] == registry[if k < i then k else k + 1]
      && Request(Without(registry, i)[k].msgid, SearchOnRead) in rest
  {
    var after := Without(registry, i);
    forall k | 0 <= k < |after|
      ensures after[k] == registry[if k < i then k else k + 1] && Request(after[k].msgid, SearchOnRead) in rest
    {
      var from := if k < i then k else k + 1;
      assert Request(registry[from].msgid, SearchOnRead) in [r] + rest && registry[from].msgid != r.msgid;
    }
  }

  lemma StillWaiting(registry: seq<SearchRecord>, i: nat, id: int)
    requires i < |registry| && Waiting(registry, id) && id != registry[i].msgid
    ensures Waiting(Without(registry, i), id)
  {
    var k :| 0 <= k < |registry| && registry[k].msgid == id;
    assert Without(registry, i)[if k < i then k else k - 1].msgid == id;
  }

  /** The record whose callback has run leaves the registry together with its request. */
  lemma RemoveGood(v: View, r: Request, rest: seq<Request>, i: nat)
    requires Good(v, [r] + rest, {r.msgid}) && i < |v.registry|
    requires r.onRead == SearchOnRead && v.registry[i].msgid == r.msgid
    requires Orderly(v.history) ==> Called(v.history.fired, r.msgid)
    ensures Good(v.(registry := RemoveRecord(v.registry, v.nRead, i)), rest)
  {
    HandshakesAppend([r], rest);
    if Orderly(v.history) {
      RemovalIsExact(v, [r] + rest, {r.msgid}, i);
      StillHeld(v.registry, r, rest, i);
      forall id | id in v.history.registered ensures Waiting(Without(v.registry, i), id) || Called(v.history.fired, id) {
        if Waiting(v.registry, id) && id != r.msgid { StillWaiting(v.registry, i, id); }
      }
    }
  }

  /* ---- Handlers: `r` has been popped, `extra` is the pending array ---- */

  lemma FireGood(v: View, held: seq<Request>, i: nat, entries: seq<int>)
    requires Good(v, held) && i < |v.registry|
    ensures Good(v.(history := Fire(v.history, v.registry[i], entries)), held, {v.registry[i].msgid})
    ensures Called(Fire(v.history, v.registry[i], entries).fired, v.registry[i].msgid)
  {
    var record := v.registry[i];
    var fired := Fire(v.history, record, entries).fired;
    assert fired[|v.history.fired|].record.msgid == record.msgid;
    if Orderly(v.history) {
      forall id | Called(v.history.fired, id) ensures Called(fired, id) {
        var k :| 0 <= k < |v.history.fired| && v.history.fired[k].record.msgid == id;
        assert fired[k].record.msgid == id;
      }
      forall k | 0 <= k < |v.registry| && v.registry[k].msgid != record.msgid
        ensures !Called(fired, v.registry[k].msgid)
      {
        assert !Called(v.history.fired, v.registry[k].msgid);
      }
    }
  }

  /** The tables and the schema path are in no invariant. */
  lemma SettledGood(v: View, w: View, held: seq<Request>, firing: set<int>)
    requires Good(v, held, firing)
    requires w == v.(attributeTypes := w.attributeTypes, objectClasses := w.objectClasses, schemaPathKnown := w.schemaPathKnown)
    ensures Good(w, held, firing)
  {
    AgreementStands(v, w, held, firing);
  }

  lemma RunCallbackGood(v: View, held: seq<Request>, extra: seq<Request>, i: nat, a: Answer)
    requires held == extra + v.queue && Good(v, held) && i < |v.registry| && v.registry[i].callback != NoCallback
    requires !RunCallback(v, v.registry[i], a).overrun
    ensures var w := RunCallback(v, v.registry[i], a);
      && Good(w, extra + w.queue, {v.registry[i].msgid})
      && Called(w.history.fired, v.registry[i].msgid)
  {
    var record := v.registry[i];
    var fired := v.(history := Fire(v.history, record, a.entries));
    FireGood(v, held, i, a.entries);
    if record.callback.User? {
      PerformAllGood(fired, extra, a.calls, {record.msgid});
    } else {
      SettledGood(fired, RunCallback(v, record, a), held, {record.msgid});
    }
  }

  lemma FiredSearchGood(v: View, r: Request, extra: seq<Request>, i: nat, a: Answer)
    requires Good(v, [r] + (extra + v.queue)) && r.onRead == SearchOnRead
    requires i < |v.registry| && v.registry[i].msgid == r.msgid && v.registry[i].callback != NoCallback
    requires !RunCallback(v, v.registry[i], a).overrun
    ensures var w := RunCallback(v, v.registry[i], a);
      Good(w.(registry := RemoveRecord(w.registry, w.nRead, i)), extra + w.queue)
  {
    var w := RunCallback(v, v.registry[i], a);
    Regroup(r, extra, v.queue);
    RunCallbackGood(v, [r] + (extra + v.queue), [r] + extra, i, a);
    Regroup(r, extra, w.queue);
    RemoveGood(w, r, extra + w.queue, i);
  }

  lemma UnansweredGood(v: View, r: Request, rest: seq<Request>)
    requires Good(v, [r] + rest)
    ensures Good(Blame(v, UnansweredSearch), rest)
  {
    assert Good(Blame(v, UnansweredSearch), [r] + rest);
    GoodForgets(Blame(v, UnansweredSearch), [r], rest);
  }

  lemma OnSearchGood(v: View, r: Request, extra: seq<Request>, a: Answer)
    requires Good(v, [r] + (extra + v.queue)) && r.onRead == SearchOnRead && !OnSearch(v, r.msgid, a).overrun
    ensures var w := OnSearch(v, r.msgid, a); Good(w, extra + w.queue)
  {
    if a.kind == SearchEntry || a.kind == SearchResult {
      var found := FindRecord(v.registry, r.msgid);
      if found.Some? && v.registry[found.value].callback != NoCallback {
        FiredSearchGood(v, r, extra, found.value, a);
      } else {
        GoodForgets(v, [r], extra + v.queue);
        if found.None? { PerformAllGood(v, extra, a.calls, {}); }
      }
    } else {
      UnansweredGood(v, r, extra + v.queue);
      if a.kind != SearchReference { PerformAllGood(Blame(v, UnansweredSearch), extra, a.calls, {}); }
    }
  }

  lemma OnTlsGood(v: View, r: Request, rest: seq<Request>, a: Answer)
    requires Good(v, [r] + rest) && r.onRead == StartTlsOnRead
    ensures Good(OnTls(v, a), rest)
  {
    HandshakesAppend([r], rest);
    OneRequest(r);
    GoodForgets(v, [r], rest);
  }

  /** What the request has just been answered with suits the operation asked under its id. */
  ghost predicate Suits(h: History, r: Request, kind: MessageKind) {
    Conforming(h) ==> r.msgid in h.asked && Fits(h.asked[r.msgid], kind)
  }

  /** So a bind response means that a bind has been asked, after the handshake. */
  lemma AskedBefore(v: View, r: Request)
    requires AskedAfterTls(v) && Suits(v.history, r, BindResponse)
    ensures AskedAfterTls(CallsBind(v)) && (v.useStartTls && Conforming(v.history) ==> v.history.tlsUp)
  {
  }

  lemma HeardGood(v: View, held: seq<Request>, r: Request, a: Answer)
    requires Good(v, held)
    ensures Good(Heard(v, r, a), held) && Suits(Heard(v, r, a).history, r, a.kind)
  {
    AgreementStands(v, Heard(v, r, a), held, {});
  }

  /** The popped bind request makes way for the next one. */
  lemma BindContinuesGood(v: View, r: Request, held: seq<Request>, next: Request)
    requires v.listening && Good(v, [r] + held) && r.onRead == BindOnRead && next.onRead == BindOnRead && v.bindType == Interactive
    requires Suits(v.history, r, BindResponse)
    requires !Enqueue(CallsBind(v), next).overrun
    ensures Good(Enqueue(CallsBind(v), next), held + [next])
  {
    assert r in [r] + held;
    HandshakesAppend([r], held);
    OneRequest(r);
    GoodForgets(v, [r], held);
    HandshakesAppend(held, [next]);
    OneRequest(next);
    AgreementStands(v, CallsBind(v), held, {});
    AgreementExtends(CallsBind(v), held, next, {});
    AskedBefore(v, r);
  }

  /** A bind call for a request that a read event delivered comes after the handshake. */
  lemma AnsweredBindGood(v: View, r: Request, rest: seq<Request>)
    requires v.listening && Good(v, [r] + rest) && r.onRead == BindOnRead && v.bindType == Interactive
    requires Suits(v.history, r, BindResponse)
    ensures Good(CallsBind(v), rest)
  {
    assert r in [r] + rest;
    AskedBefore(v, r);
    GoodForgets(v, [r], rest);
    AgreementStands(v, CallsBind(v), rest, {});
  }

  lemma LeavesGood(v: View, held: seq<Request>, next: State)
    requires Good(v, held) && (next == Error || next == Bound)
    ensures Good(v.(state := next), held)
  {
    AgreementStands(v, v.(state := next), held, {});
  }

  lemma BindDoneGood(v: View, r: Request, rest: seq<Request>, a: Answer)
    requires v.listening && Good(v, [r] + rest) && r.onRead == BindOnRead && Suits(v.history, r, a.kind)
    requires !(v.bindType == Interactive && a.kind == BindResponse && a.sasl.SaslInProgress?)
    ensures Good(OnBind(v, a), rest)
  {
    GoodForgets(v, [r], rest);
    if a.kind == BindResponse {
      if v.bindType == Simple {
        LeavesGood(v, rest, Error);
      } else {
        AnsweredBindGood(v, r, rest);
        LeavesGood(CallsBind(v), rest, if a.sasl.SaslSuccess? then Bound else Error);
      }
    }
  }

  lemma OnBindGood(v: View, r: Request, extra: seq<Request>, a: Answer)
    requires v.listening && Good(v, [r] + (extra + v.queue)) && r.onRead == BindOnRead && !OnBind(v, a).overrun
    requires Suits(v.history, r, a.kind)
    ensures var w := OnBind(v, a); Good(w, extra + w.queue)
  {
    if v.bindType == Interactive && a.kind == BindResponse && a.sasl.SaslInProgress? {
      var next := Request(a.sasl.msgid, BindOnRead);
      BindContinuesGood(v, r, extra + v.queue, next);
      assert extra + (v.queue + [next]) == extra + v.queue + [next];
    } else {
      BindDoneGood(v, r, extra + v.queue, a);
    }
  }

  lemma {:induction false} RecogniseKnown(messages: seq<seq<string>>, before: DirectoryType)
    ensures before != Uninitialized ==> Recognise(messages, before) != Uninitialized
    decreases |messages|
  {
    if messages != [] {
      RecogniseMessageValues(messages[|messages| - 1]);
      RecogniseKnown(messages[..|messages| - 1], before);
    }
  }

  lemma OnDirectoryGood(v: View, extra: seq<Request>, a: Answer)
    requires Good(v, extra + v.queue) && !OnDirectory(v, a).overrun
    ensures var w := OnDirectory(v, a); Good(w, extra + w.queue)
  {
    match a.kind
    case SearchEntry | SearchResult => RecogniseKnown(a.attributes, v.directoryType);
    case SearchReference =>
    case _ => PerformAllGood(v, extra, a.calls, {});
  }

  lemma DispatchGood(v: View, r: Request, extra: seq<Request>, a: Answer)
    requires v.listening && Good(v, [r] + extra + v.queue) && !Dispatch(v, r, a).overrun && Suits(v.history, r, a.kind)
    ensures var w := Dispatch(v, r, a); Good(w, extra + w.queue)
  {
    Regroup(r, extra, v.queue);
    match r.onRead
    case StartTlsOnRead => OnTlsGood(v, r, extra + v.queue, a);
    case BindOnRead => OnBindGood(v, r, extra, a);
    case SearchOnRead => OnSearchGood(v, r, extra, a);
    case NoHandler => GoodForgets(v, [r], extra + v.queue);
    case OperationOnRead =>
      GoodForgets(v, [r], extra + v.queue);
      PerformAllGood(v, extra, a.calls, {});
    case DirectoryOnRead =>
      GoodForgets(v, [r], extra + v.queue);
      OnDirectoryGood(v, extra, a);
  }

  /* ---- The drain ---- */

  ghost predicate DrainGood(d: Drain) {
    d.v.listening && Good(d.v, if d.aborted then d.v.queue else d.pending + d.v.queue)
  }

  lemma DroppedGood(v: View, pending: seq<Request>, r: Request)
    requires Good(v, [r] + pending + v.queue)
    ensures var w := Dropped(v, r); Good(w, pending + w.queue)
  {
    var w := if r.onRead == SearchOnRead then Blame(v, DroppedSearch) else v;
    Regroup(r, pending, w.queue);
    assert Good(w, [r] + (pending + w.queue));
    GoodForgets(w, [r], pending + w.queue);
  }

  lemma AbortedGood(v: View, lost: seq<Request>)
    requires Good(v, lost + v.queue)
    ensures var w := Forgotten(v, lost); Good(w, w.queue)
  {
    var w := Forgotten(v, lost);
    assert Good(w, lost + w.queue);
    GoodForgets(w, lost, w.queue);
  }

  lemma DrainStepGood(d: Drain, reply: Reply)
    requires DrainGood(d) && !Finished(d) && !DrainStep(d, reply).v.overrun
    ensures DrainGood(DrainStep(d, reply))
  {
    var r := d.v.queue[0];
    var v := d.v.(queue := d.v.queue[1..]);
    PoppedGood(d);
    match reply
    case Answered(a) =>
      GoodRotates(v, d.pending, r, v.queue);
      HeardGood(v, [r] + d.pending + v.queue, r, a);
      DispatchGood(Heard(v, r, a), r, d.pending, a);
    case NotYet =>
    case Failed(codeReadable, messageReadable) =>
      if codeReadable && messageReadable {
        GoodRotates(v, d.pending, r, v.queue);
        DroppedGood(v, d.pending, r);
      } else {
        AbortedGood(v, d.pending + [r]);
      }
  }

  lemma PoppedGood(d: Drain)
    requires DrainGood(d) && !Finished(d)
    ensures var v := d.v.(queue := d.v.queue[1..]); Good(v, d.pending + [d.v.queue[0]] + v.queue)
  {
    var v := d.v.(queue := d.v.queue[1..]);
    assert d.pending + d.v.queue == d.pending + [d.v.queue[0]] + v.queue;
  }

  lemma {:induction false} DrainedGood(d: Drain, script: seq<Reply>)
    requires DrainGood(d) && d.v.nRead <= MAX_REQUESTS && !Drained(d, script).v.overrun
    ensures DrainGood(Drained(d, script))
    decreases MAX_REQUESTS - d.v.nRead + |d.v.queue|
  {
    if !Finished(d) {
      var e := DrainTurns(d, script);
      DrainStepGood(d, ReplyAt(script, |d.popped|));
      DrainedGood(e, script);
    }
  }

  lemma ReadGood(v: View, script: seq<Reply>)
    requires v.listening && Good(v, v.queue) && !v.overrun && !OnReadEvent(v, script).overrun
    ensures var w := OnReadEvent(v, script); Good(w, w.queue)
  {
    assert [] + v.queue == v.queue;
    DrainedGood(StartDrain(v), script);
    var d := Drained(StartDrain(v), script);
    if !d.aborted { assert d.pending + [] == d.pending; }
  }

  /* ---- The state machine ---- */

  /** Sending a TLS or bind request uses up the permission its state held. */
  lemma HandshakeGood(v: View, r: Request, next: State)
    requires Good(v, v.queue) && IsHandshake(r) && !Enqueue(v, r).overrun
    requires v.handlersInstalled && ((v.state == Init && r.onRead == StartTlsOnRead) || v.state == TransportReady)
    requires next in {TlsNegotiation, BindInProgress, DetectDirectory}
    ensures var w := Enqueue(v, r).(state := next); Good(w, w.queue)
  {
    var w := Enqueue(v, r);
    HandshakeGuards(v, r, next);
    AskedMore(v, r);
    AgreementExtends(v, v.queue, r, {});
    AgreementStands(w, w.(state := next), v.queue + [r], {});
  }

  lemma HandshakeGuards(v: View, r: Request, next: State)
    requires OneHandshake(v, v.queue) && TlsGuard(v, v.queue) && AskedAfterTls(v)
    requires IsHandshake(r) && !Enqueue(v, r).overrun
    requires v.handlersInstalled && ((v.state == Init && r.onRead == StartTlsOnRead) || v.state == TransportReady)
    requires next in {TlsNegotiation, BindInProgress, DetectDirectory}
    ensures var w := Enqueue(v, r).(state := next); OneHandshake(w, w.queue) && TlsGuard(w, w.queue)
  {
    HandshakesAppend(v.queue, [r]);
    OneRequest(r);
  }

  lemma SchemaSearchGood(v: View, outcome: SendOutcome, callback: Callback)
    requires Good(v, v.queue) && !SchemaSearch(v, outcome, callback).0.overrun
    ensures var w := SchemaSearch(v, outcome, callback).0; Good(w, w.queue)
  {
    if outcome.Sent? {
      assert [] + v.queue == v.queue;
      PerformGood(v, [], Search(outcome.msgid, callback, SCHEMA_DATA), {});
      var w := Perform(v, Search(outcome.msgid, callback, SCHEMA_DATA));
      assert [] + w.queue == w.queue;
    }
  }

  lemma LoadSchemaGood(v: View, t: Tick)
    requires Good(v, v.queue) && !LoadSchema(v, t).0.overrun
    ensures var w := LoadSchema(v, t).0; Good(w, w.queue) && w.state == v.state && w.directoryType == v.directoryType
  {
    match v.directoryType
    case OpenLdap => LoadTablesGood(v, t);
    case ActiveDirectory =>
      if v.schemaPathKnown { LoadTablesGood(v, t); } else { SchemaSearchGood(v, t.firstSearch, RememberSchemaPath); }
    case _ =>
  }

  lemma LoadTablesGood(v: View, t: Tick)
    requires Good(v, v.queue) && !LoadTables(v, t).0.overrun
    ensures var w := LoadTables(v, t).0; Good(w, w.queue) && w.state == v.state && w.directoryType == v.directoryType
  {
    SchemaSearchGood(v, t.firstSearch, AppendAttributeTypes);
    var (w, ok) := SchemaSearch(v, t.firstSearch, AppendAttributeTypes);
    if ok { SchemaSearchGood(w, t.secondSearch, AppendObjectClasses); }
  }

  lemma {:induction false} NoHandshakes(held: seq<Request>)
    ensures Handshakes(held) == 0 <==> forall r | r in held :: !IsHandshake(r)
    decreases |held|
  {
    if held != [] {
      NoHandshakes(held[..|held| - 1]);
      assert held == held[..|held| - 1] + [held[|held| - 1]];
    }
  }

  lemma ResetGood(v: View)
    ensures var w := Reconnected(Reset(v)); Good(w, w.queue)
  {
  }

  lemma KeepsGood(v: View, incomplete: bool)
    requires Good(v, v.queue) && v.state == Error && v.reconnectAttempts < MAX_RECONNECT_ATTEMPTS && !v.listening
    ensures var w := Reconnected(KeepsRequests(v, incomplete)); Good(w, w.queue)
  {
    NoHandshakes(v.queue);
  }

  lemma StepErrorGood(v: View, t: Tick)
    requires Good(v, v.queue) && v.state == Error
    ensures var w := StepError(v, t); Good(w, w.queue)
  {
    var closed := v.(listening := false);
    assert Good(closed, closed.queue);
    if v.reconnectAttempts < MAX_RECONNECT_ATTEMPTS {
      if t.configure == Completed { ResetGood(closed); } else { KeepsGood(closed, t.configure == Incomplete); }
    }
  }

  /** The handlers are installed only when no interactive bind request is waiting. */
  lemma InstalledGood(v: View)
    requires Good(v, v.queue)
    ensures Good(Installed(v), v.queue) && Installed(v).handlersInstalled
  {
  }

  lemma EnterGood(v: View, next: State)
    requires Good(v, v.queue) && next != Init && (next == TransportReady ==> v.state == Init && !v.useStartTls)
    requires Later(next) ==> v.directoryType != Uninitialized
    ensures Good(v.(state := next), v.queue)
  {
  }

  lemma CallsBindGood(v: View)
    requires Good(v, v.queue) && v.state == TransportReady
    ensures Good(CallsBind(v), v.queue)
  {
  }

  lemma StepBindGood(v: View, t: Tick)
    requires Good(v, v.queue) && v.state == TransportReady && !StepBind(v, t).0.overrun
    ensures var w := StepBind(v, t).0; Good(w, w.queue)
  {
    var w, rc := CallsBind(v), BindCode(v, t);
    CallsBindGood(v);
    if rc == RcSuccess || rc == RcInProgress {
      InstalledGood(w);
      HandshakeGood(Installed(w), Request(t.bind.msgid, BindOnRead), AfterBind(rc));
    } else if rc == RcFailure {
      EnterGood(w, Error);
    }
  }

  lemma StepDetectGood(v: View, t: Tick)
    requires Good(v, v.queue) && v.state == DetectDirectory && !StepDetect(v, t).overrun
    ensures var w := StepDetect(v, t); Good(w, w.queue)
  {
    if v.directoryType != Uninitialized {
      EnterGood(v, RequestSchema);
    } else if t.directory.Sent? {
      EnqueueGood(v, v.queue, Request(t.directory.msgid, DirectoryOnRead), {});
    } else {
      EnterGood(v, Error);
    }
  }

  lemma StepInitGood(v: View, t: Tick)
    requires Good(v, v.queue) && v.state == Init && !StepInit(v, t).overrun
    ensures var w := StepInit(v, t); Good(w, w.queue)
  {
    if !v.useStartTls {
      EnterGood(v, TransportReady);
    } else if t.tls.Sent? && CanInstall(v, t) {
      InstalledGood(v);
      HandshakeGood(Installed(v), Request(t.tls.msgid, StartTlsOnRead), TlsNegotiation);
    } else {
      EnterGood(v, Error);
    }
  }

  lemma StepSchemaGood(v: View, t: Tick)
    requires Good(v, v.queue) && v.state == RequestSchema && !StepSchema(v, t).overrun
    ensures var w := StepSchema(v, t); Good(w, w.queue)
  {
    LoadSchemaGood(v, t);
    var (w, rc) := LoadSchema(v, t);
    EnterGood(w, StepSchema(v, t).state);
  }

  lemma TickGood(v: View, t: Tick)
    requires Good(v, v.queue) && !v.overrun && !NextState(v, t).0.overrun
    ensures var w := NextState(v, t).0; Good(w, w.queue)
  {
    match v.state
    case Init => StepInitGood(v, t);
    case TransportReady => StepBindGood(v, t);
    case DetectDirectory => StepDetectGood(v, t);
    case RequestSchema => StepSchemaGood(v, t);
    case Error => StepErrorGood(v, t);
    case TlsNegotiation | BindInProgress | Bound | CheckSchema | Running => SilentGood(v, t);
  }

  /** The states whose step makes no call. */
  lemma SilentGood(v: View, t: Tick)
    requires Good(v, v.queue) && v.state in {TlsNegotiation, BindInProgress, Bound, CheckSchema, Running}
    ensures var w := NextState(v, t).0; Good(w, w.queue)
  {
    match v.state
    case Bound => EnterGood(v, DetectDirectory);
    case CheckSchema => EnterGood(v, Running);
    case Running => RunningGood(v);
    case _ =>
  }

  lemma RunningGood(v: View)
    requires Good(v, v.queue)
    ensures Good(v.(reconnectAttempts := 0, resets := v.resets + 1), v.queue)
  {
  }

  /* ---- Whole runs ---- */

  lemma StepGood(v: View, a: Action)
    requires Good(v, v.queue) && !Step(v, a).overrun
    ensures var w := Step(v, a); Good(w, w.queue)
  {
    match a
    case Timer(tick) => TickGood(v, tick);
    case ReadEvent(script) => if v.listening { ReadGood(v, script); }
    case ApiCall(call) =>
      assert [] + v.queue == v.queue;
      PerformGood(v, [], call, {});
      var w := Perform(v, call);
      assert [] + w.queue == w.queue;
    case Break =>
  }

  /** Every reachable state keeps all the invariants. */
  lemma RunGood(useStartTls: bool, bindType: BindType, actions: seq<Action>)
    requires !Run(Configured(useStartTls, bindType), actions).overrun
    ensures var w := Run(Configured(useStartTls, bindType), actions); Good(w, w.queue)
  {
    RunStaysGood(Configured(useStartTls, bindType), actions);
  }

  lemma StepKeepsMarks(v: View, a: Action)
    requires Window(v)
    ensures var w := Step(v, a);
      && v.reconnects <= w.reconnects
      && (v.reconnects == w.reconnects ==>
            && (KeptBind in v.history.faults <==> KeptBind in w.history.faults)
            && (KeptHandshake in v.history.faults <==> KeptHandshake in w.history.faults))
  {
    if a.Timer? && v.state != Error && v.state != Running { TickAdvances(v, a.tick); }
  }

  /** From any good state the invariants last, and while nothing reconnects so do the marks of failed
      reconfigurations. */
  lemma {:induction false} RunStaysGood(v: View, actions: seq<Action>)
    requires Good(v, v.queue) && !v.overrun && !Run(v, actions).overrun
    ensures var w := Run(v, actions);
      && Good(w, w.queue) && v.reconnects <= w.reconnects
      && (v.reconnects == w.reconnects ==>
            && (KeptBind in v.history.faults <==> KeptBind in w.history.faults)
            && (KeptHandshake in v.history.faults <==> KeptHandshake in w.history.faults))
    decreases |actions|
  {
    if actions != [] {
      var n := |actions| - 1;
      var u := Run(v, actions[..n]);
      RunStaysGood(v, actions[..n]);
      StepGood(u, actions[n]);
      StepKeepsMarks(u, actions[n]);
    }
  }
}
