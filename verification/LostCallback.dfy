/** A run in which a search that was dropped on an error costs another search its callback. */
module LostCallback {
  import opened Prelude
  import opened Conservation
  import opened Model

  const CONNECTS := Timer(Tick(NotSent, BindSent(1), true, NotSent, NotSent, NotSent, Completed))

  function SearchCall(id: int): Action { ApiCall(Search(id, User(id), 0)) }

  function SimpleBindDone(): Answer { Answer(BindResponse, true, 0, true, SaslError, [], [], [], []) }

  function SearchDone(): Answer { Answer(SearchResult, true, 0, true, SaslError, [], [], [], []) }

  /** The bind is answered, the first search fails, the others wait. */
  function FirstDropped(): seq<Reply> { [Answered(SimpleBindDone()), Failed(true, true)] }

  function OthersAnswered(): seq<Reply> { [Answered(SearchDone()), Answered(SearchDone())] }

  function LosingRun(): seq<Action> {
    [CONNECTS, CONNECTS, SearchCall(2), SearchCall(3), SearchCall(4), ReadEvent(FirstDropped()), ReadEvent(OthersAnswered())]
  }

  const BIND := Request(1, BindOnRead)

  function Searching(id: int): Request { Request(id, SearchOnRead) }

  function Registered(id: int): SearchRecord { SearchRecord(id, User(id), 0) }

  /** A bound connection with these requests and records, none of which has called back. */
  ghost predicate Holds(v: View, queue: seq<Request>, registry: seq<SearchRecord>) {
    && v.queue == queue && v.nRead == |queue| && v.registry == registry && v.history.fired == []
    && v.state == DetectDirectory && v.bindType == Simple && v.listening && !v.overrun
    && (forall r | r in queue :: Outstanding(v.history, r.msgid, r.onRead))
  }

  /** The ids given out so far, none of them answered, are below `n`. */
  ghost predicate CountedBelow(h: History, n: int) {
    h.asked.Keys <= h.issued && h.answered == {} && forall id | id in h.issued :: id < n
  }

  lemma Connects() returns (v: View)
    ensures v == Step(Step(Configured(false, Simple), CONNECTS), CONNECTS) && Holds(v, [BIND], [])
    ensures CountedBelow(v.history, 2) && v.history.faults == {}
  {
    var u := Step(Configured(false, Simple), CONNECTS);
    v := Step(u, CONNECTS);
    assert [] + [BIND] == [BIND];
  }

  lemma SearchMade(v: View, id: int, queue: seq<Request>, registry: seq<SearchRecord>) returns (w: View)
    requires Holds(v, queue, registry) && |queue| < 8 && |registry| < 8
    requires id > 0 && CountedBelow(v.history, id)
    ensures w == Step(v, SearchCall(id)) && Holds(w, queue + [Searching(id)], registry + [Registered(id)])
    ensures id in w.history.registered && w.history.faults == v.history.faults && CountedBelow(w.history, id + 1)
  {
    w := Step(v, SearchCall(id));
  }

  lemma Appended<T>(a: T, b: T, c: T, d: T)
    ensures [] + [a] == [a] && [a] + [b] == [a, b] && [a, b] + [c] == [a, b, c] && [a, b, c] + [d] == [a, b, c, d]
  {
  }

  lemma SearchesMade(v: View) returns (w: View)
    requires Holds(v, [BIND], []) && CountedBelow(v.history, 2) && v.history.faults == {}
    ensures w.history.faults == {}
    ensures w == Step(Step(Step(v, SearchCall(2)), SearchCall(3)), SearchCall(4)) && 4 in w.history.registered
    ensures Holds(w, [BIND, Searching(2), Searching(3), Searching(4)], [Registered(2), Registered(3), Registered(4)])
  {
    Appended(BIND, Searching(2), Searching(3), Searching(4));
    Appended(Registered(2), Registered(3), Registered(4), Registered(4));
    var v1 := SearchMade(v, 2, [BIND], []);
    var v2 := SearchMade(v1, 3, [BIND, Searching(2)], [Registered(2)]);
    w := SearchMade(v2, 4, [BIND, Searching(2), Searching(3)], [Registered(2), Registered(3)]);
  }

  lemma BindAnswered(v: View, queue: seq<Request>, registry: seq<SearchRecord>) returns (d: Drain)
    requires Holds(v, queue, registry) && queue != [] && queue[0] == BIND
    ensures d == DrainStep(StartDrain(v), Answered(SimpleBindDone()))
    ensures d.v == Heard(v.(queue := queue[1..]), BIND, SimpleBindDone()) && d.v.history.faults == v.history.faults
    ensures d.pending == [] && |d.popped| == 1 && !d.aborted
  {
    assert Outstanding(v.history, queue[0].msgid, BindOnRead);
    d := DrainStep(StartDrain(v), Answered(SimpleBindDone()));
  }

  lemma SearchDropped(d: Drain) returns (e: Drain)
    requires d.v.queue != [] && d.v.queue[0].onRead == SearchOnRead && d.v.state == DetectDirectory
    ensures e == DrainStep(d, Failed(true, true)) && !e.aborted && e.pending == d.pending && |e.popped| == |d.popped| + 1
    ensures e.v == Blame(d.v.(queue := d.v.queue[1..]), DroppedSearch)
  {
    e := DrainStep(d, Failed(true, true));
  }

  lemma FirstSearchDropped(v: View, queue: seq<Request>, registry: seq<SearchRecord>) returns (w: View)
    requires Holds(v, queue, registry) && 2 <= |queue| <= MAX_REQUESTS && queue[0] == BIND && queue[1].onRead == SearchOnRead
    requires forall r | r in queue[2..] :: r.msgid != BIND.msgid
    ensures w == Step(v, ReadEvent(FirstDropped())) && w.history.registered == v.history.registered
    ensures w.history.faults == v.history.faults + {DroppedSearch} && Holds(w, queue[2..], registry)
  {
    var d := BindAnswered(v, queue, registry);
    var e := SearchDropped(d);
    TwoTurns(v, d, e);
    w := Step(v, ReadEvent(FirstDropped()));
    assert [] + queue[1..][1..] == queue[2..];
    forall r | r in queue[2..] ensures Outstanding(w.history, r.msgid, r.onRead) { assert r in queue; }
  }

  lemma FirstRead(v: View) returns (w: View)
    requires Holds(v, [BIND, Searching(2), Searching(3), Searching(4)], [Registered(2), Registered(3), Registered(4)])
    ensures w == Step(v, ReadEvent(FirstDropped())) && w.history.registered == v.history.registered
    ensures w.history.faults == v.history.faults + {DroppedSearch}
    ensures Holds(w, [Searching(3), Searching(4)], [Registered(2), Registered(3), Registered(4)])
  {
    assert v.queue[2..] == [Searching(3), Searching(4)];
    w := FirstSearchDropped(v, v.queue, v.registry);
  }

  /** The requests that come after those the script answers are found pending. */
  lemma TwoTurns(v: View, d: Drain, e: Drain)
    requires Window(v) && v.listening && !v.overrun && |v.queue| >= 2
    requires d == DrainStep(StartDrain(v), FirstDropped()[0]) && !Finished(d)
    requires e == DrainStep(d, FirstDropped()[1]) && !e.aborted && !e.v.overrun && e.pending == []
    ensures var queue := [] + e.v.queue; Step(v, ReadEvent(FirstDropped())) == e.v.(queue := queue, nRead := |queue|)
  {
    var script := FirstDropped();
    var d' := DrainTurns(StartDrain(v), script);
    var e' := DrainTurns(d, script);
    AllPending(e, script);
  }

  /** The index test fires for the second record, so the last one goes in its place. */
  lemma SecondDiscardsThird(v: View) returns (d: Drain)
    requires Holds(v, [Searching(3), Searching(4)], [Registered(2), Registered(3), Registered(4)])
    ensures d == DrainStep(StartDrain(v), Answered(SearchDone())) && d.v.queue == [Searching(4)] && d.v.nRead == 2
    ensures d.v.registry == [Registered(2), CLEARED_RECORD] && d.v.history.registered == v.history.registered
    ensures d.v.history.fired == [Firing(Registered(3), [])] && !d.v.overrun && !d.aborted && d.pending == [] && |d.popped| == 1
    ensures Outstanding(d.v.history, 4, SearchOnRead) && d.v.history.faults == v.history.faults
  {
    d := DrainStep(StartDrain(v), Answered(SearchDone()));
    assert Searching(3) in v.queue && Searching(4) in v.queue;
    assert v.registry == [Registered(2), Registered(3), Registered(4)] && FindRecord(v.registry, 3) == Some(1);
    OwnRecordRemoved(Heard(v.(queue := v.queue[1..]), Searching(3), SearchDone()), 3, 1);
  }

  lemma OwnRecordRemoved(v: View, msgid: int, i: nat)
    requires FindRecord(v.registry, msgid) == Some(i) && v.registry[i].callback.User?
    ensures OnSearch(v, msgid, SearchDone()) ==
      v.(history := Fire(v.history, v.registry[i], []), registry := RemoveRecord(v.registry, v.nRead, i))
  {
    var w := RunCallback(v, v.registry[i], SearchDone());
    assert w == v.(history := Fire(v.history, v.registry[i], []));
  }

  lemma ThirdFindsNothing(d: Drain) returns (e: Drain)
    requires d.v.queue == [Searching(4)] && !d.v.overrun && !d.aborted
    requires d.v.registry == [Registered(2), CLEARED_RECORD] && Outstanding(d.v.history, 4, SearchOnRead)
    ensures e == DrainStep(d, Answered(SearchDone())) && !e.aborted && e.pending == d.pending
    ensures e.v == Heard(d.v.(queue := []), Searching(4), SearchDone()) && e.v.history.faults == d.v.history.faults
  {
    e := DrainStep(d, Answered(SearchDone()));
    assert FindRecord(d.v.registry, 4) == None;
  }

  lemma OthersRead(v: View) returns (w: View)
    requires Holds(v, [Searching(3), Searching(4)], [Registered(2), Registered(3), Registered(4)])
    ensures w == Step(v, ReadEvent(OthersAnswered())) && w.queue == [] && !w.overrun
    ensures w.history.fired == [Firing(Registered(3), [])] && w.history.registered == v.history.registered
    ensures w.history.faults == v.history.faults
  {
    var script := OthersAnswered();
    var d := SecondDiscardsThird(v);
    var e := ThirdFindsNothing(d);
    var d' := DrainTurns(StartDrain(v), script);
    var e' := DrainTurns(d, script);
    w := Step(v, ReadEvent(script));
  }

  /** The runs from `c`, each with the state it leads to. */
  ghost function Runs(c: View): iset<(seq<Action>, View)>
    requires Window(c)
  {
    iset actions: seq<Action> :: (actions, Run(c, actions))
  }

  ghost predicate Closed(runs: iset<(seq<Action>, View)>) {
    forall actions, x, a | (actions, x) in runs && Window(x) :: (actions + [a], Step(x, a)) in runs
  }

  lemma RunsAreClosed(c: View)
    requires Window(c)
    ensures ([], c) in Runs(c) && Closed(Runs(c))
  {
    assert Run(c, []) == c;
    forall actions, x, a | (actions, x) in Runs(c) && Window(x) ensures (actions + [a], Step(x, a)) in Runs(c) {
      RunEnds(c, actions, a);
    }
  }

  lemma Takes(runs: iset<(seq<Action>, View)>, actions: seq<Action>, x: View, a: Action)
    requires Closed(runs) && (actions, x) in runs && Window(x)
    ensures (actions + [a], Step(x, a)) in runs && Window(Step(x, a))
  {
  }

  /** Up to the three searches. */
  lemma Searches(runs: iset<(seq<Action>, View)>) returns (v: View)
    requires Closed(runs) && ([], Configured(false, Simple)) in runs
    ensures ([] + [CONNECTS] + [CONNECTS] + [SearchCall(2)] + [SearchCall(3)] + [SearchCall(4)], v) in runs
    ensures Holds(v, [BIND, Searching(2), Searching(3), Searching(4)], [Registered(2), Registered(3), Registered(4)])
    ensures 4 in v.history.registered && v.history.faults == {}
  {
    var c := Configured(false, Simple);
    var u := Connects();
    Takes(runs, [], c, CONNECTS);
    Takes(runs, [] + [CONNECTS], Step(c, CONNECTS), CONNECTS);
    v := SearchesMade(u);
    Takes(runs, [] + [CONNECTS] + [CONNECTS], u, SearchCall(2));
    var v1, before := Step(u, SearchCall(2)), [] + [CONNECTS] + [CONNECTS] + [SearchCall(2)];
    Takes(runs, before, v1, SearchCall(3));
    Takes(runs, before + [SearchCall(3)], Step(v1, SearchCall(3)), SearchCall(4));
  }

  lemma Listed<T>(a: T, b: T, c: T, d: T, e: T, f: T, g: T)
    ensures [] + [a] + [b] + [c] + [d] + [e] + [f] + [g] == [a, b, c, d, e, f, g]
  {
  }

  lemma Loses(runs: iset<(seq<Action>, View)>) returns (w: View)
    requires Closed(runs) && ([], Configured(false, Simple)) in runs
    ensures (LosingRun(), w) in runs && 4 in w.history.registered && w.queue == [] && !w.overrun
    ensures w.history.fired == [Firing(Registered(3), [])] && w.history.faults == {DroppedSearch}
  {
    var v := Searches(runs);
    var before := [] + [CONNECTS] + [CONNECTS] + [SearchCall(2)] + [SearchCall(3)] + [SearchCall(4)];
    Takes(runs, before, v, ReadEvent(FirstDropped()));
    var x := FirstRead(v);
    Takes(runs, before + [ReadEvent(FirstDropped())], x, ReadEvent(OthersAnswered()));
    w := OthersRead(x);
    Listed(CONNECTS, CONNECTS, SearchCall(2), SearchCall(3), SearchCall(4), ReadEvent(FirstDropped()),
           ReadEvent(OthersAnswered()));
  }

  /** After connecting, binding and three searches, the first is dropped on an error while the others
      are pending.  Answering the second discards the third's record instead of its own, so the
      third, which was answered too, never calls back.  The library and the server have done nothing
      wrong. */
  lemma DroppedSearchLosesCallback()
    ensures var w := Run(Configured(false, Simple), LosingRun());
      && 4 in w.history.registered && w.queue == [] && !w.overrun && w.history.fired == [Firing(Registered(3), [])]
      && w.history.faults == {DroppedSearch}
  {
    var c := Configured(false, Simple);
    RunsAreClosed(c);
    var w := Loses(Runs(c));
  }
}
