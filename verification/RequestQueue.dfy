/** The intrusive queue of request nodes.  A node is embedded in one slot of a connection's request
    array; `slot` stands for its address, from which the enclosing request is recovered. */
module RequestQueue {

  class Node {
    const slot: nat
    var prev: Node?

    constructor (slot: nat)
      ensures this.slot == slot && prev == null
    {
      this.slot := slot;
      prev := null;
    }
  }

  datatype ErrorCode = Success | Full | InvalidParameter | Fault

  ghost predicate Distinct(nodes: seq<Node>) {
    forall i, j | 0 <= i < j < |nodes| :: nodes[i] != nodes[j]
  }

  ghost predicate Chained(nodes: seq<Node>)
    reads nodes
  {
    forall i | 0 <= i < |nodes| - 1 :: nodes[i].prev == nodes[i + 1]
  }

  ghost predicate Disjoint(a: seq<Node>, b: seq<Node>) {
    forall i, j | 0 <= i < |a| && 0 <= j < |b| :: a[i] != b[j]
  }

  lemma DistinctJoin(a: seq<Node>, b: seq<Node>)
    requires Distinct(a) && Distinct(b) && Disjoint(a, b)
    ensures Distinct(a + b)
  {
  }

  lemma ChainedJoin(a: seq<Node>, b: seq<Node>)
    requires Chained(a) && Chained(b) && (a != [] && b != [] ==> a[|a| - 1].prev == b[0])
    ensures Chained(a + b)
  {
  }

  class Queue {
    var head: Node?
    var tail: Node?
    var size: int
    const capacity: int

    /** The linked nodes, oldest first. */
    ghost var nodes: seq<Node>

    constructor (capacity: int)
      ensures Valid() && nodes == [] && this.capacity == capacity && tail == null
    {
      head, tail, size := null, null, 0;
      this.capacity := capacity;
      nodes := [];
    }

    /** The pointers represent `nodes`.  Nothing is said about the tail of an empty queue: popping
        the last node leaves it stale. */
    ghost predicate Valid()
      reads this, nodes
    {
      && size == |nodes|
      && Distinct(nodes)
      && Chained(nodes)
      && (if nodes == [] then head == null
          else head == nodes[0] && tail == nodes[|nodes| - 1] && tail.prev == null)
    }
  }

  ghost predicate Apart(a: Queue, b: Queue)
    reads a, b
  {
    a != b && Disjoint(a.nodes, b.nodes)
  }

  ghost predicate Separate(a: Queue, b: Queue)
    reads a, a.nodes, b, b.nodes
  {
    a.Valid() && b.Valid() && Apart(a, b)
  }

  /** Push is total, as in the source; what it promises of a well-formed queue and an unlinked
      node is the last clause. */
  method Push(queue: Queue?, node: Node?) returns (rc: ErrorCode)
    modifies queue, node, if queue != null && queue.size != 0 then {queue.tail} else {}
    ensures rc == InvalidParameter <==> queue == null || node == null
    ensures queue != null && node != null ==> (rc == Full <==> old(queue.size) >= queue.capacity)
    ensures rc == InvalidParameter || rc == Full ==>
      (queue != null ==> unchanged(queue)) && (node != null ==> unchanged(node))
    ensures rc == Fault ==> unchanged(queue) && old(queue.tail) == null && old(queue.size) != 0
    ensures queue != null && node != null && old(queue.Valid()) && node !in old(queue.nodes) ==>
      && queue.Valid() && rc == (if |old(queue.nodes)| >= queue.capacity then Full else Success)
      && queue.nodes == old(queue.nodes) + (if rc == Success then [node] else [])
  {
    if queue == null || node == null {
      return InvalidParameter;
    }
    if queue.size >= queue.capacity {
      return Full;
    }
    node.prev := null;
    if queue.size == 0 {
      queue.head := node;
      queue.tail := node;
    } else {
      if queue.tail == null {
        return Fault;
      }
      queue.tail.prev := node;
      queue.tail := node;
    }
    queue.size := queue.size + 1;
    queue.nodes := queue.nodes + [node];
    return Success;
  }

  method Pop(queue: Queue?) returns (top: Node?)
    modifies queue
    ensures queue == null ==> top == null
    ensures queue != null && top == null ==>
      unchanged(queue) && (old(queue.size) <= 0 || old(queue.head) == null)
    ensures queue != null && old(queue.Valid()) ==>
      && queue.Valid()
      && (if old(queue.nodes) == [] then top == null && queue.nodes == []
          else top == old(queue.nodes)[0] && queue.nodes == old(queue.nodes)[1..])
  {
    if queue == null {
      return null;
    }
    if queue.size <= 0 {
      return null;
    }
    if queue.head == null {
      return null;
    }
    top := queue.head;
    queue.head := queue.head.prev;
    queue.size := queue.size - 1;
    queue.nodes := if queue.nodes == [] then [] else queue.nodes[1..];
  }

  function Peek(queue: Queue?): (top: Node?)
    reads queue, if queue != null then queue.nodes else []
    ensures queue == null ==> top == null
    ensures queue != null && queue.Valid() ==> top == if queue.nodes == [] then null else queue.nodes[0]
  {
    if queue == null then null else queue.head
  }

  predicate IsEmpty(queue: Queue?): (empty: bool)
    reads queue, if queue != null then queue.nodes else []
    ensures queue == null ==> empty
    ensures queue != null && queue.Valid() ==> (empty <==> queue.nodes == [])
  {
    queue == null || queue.size <= 0
  }

  /** All or nothing: on any error both queues keep every pointer; on success the target holds its
      own nodes and then the source's. */
  method Move(from: Queue?, to: Queue?) returns (rc: ErrorCode)
    modifies from, to, if to != null && to.size > 0 then {to.tail} else {}
    ensures rc == InvalidParameter <==> from == null || to == null
    ensures rc != Success ==>
      && (from != null ==> unchanged(from))
      && (to != null ==> unchanged(to) && (old(to.tail) != null ==> unchanged(old(to.tail))))
    ensures from != null && to != null && old(Separate(from, to)) ==>
      && from.Valid() && to.Valid()
      && rc == (if old(from.nodes) == [] then Fault
                else if |old(to.nodes)| + |old(from.nodes)| > to.capacity then Full else Success)
      && (rc == Success ==> to.nodes == old(to.nodes) + old(from.nodes) && from.nodes == [])
  {
    if from == null || to == null {
      return InvalidParameter;
    }
    if from.head != null && from.tail != null {
      if to.tail == null && to.size > 0 {
        return Fault;
      }
      if to.size + from.size > to.capacity {
        return Full;
      }
      ghost var front, back := to.nodes, from.nodes;
      ghost var apart := Separate(from, to);
      if to.size > 0 {
        to.tail.prev := from.head;
        to.tail := from.tail;
        to.size := to.size + from.size;
      } else {
        to.head := from.head;
        to.tail := from.tail;
        to.size := from.size;
      }
      to.nodes := front + back;
      from.head, from.tail := null, null;
      from.size := 0;
      from.nodes := [];
      if apart {
        DistinctJoin(front, back);
        ChainedJoin(front, back);
      }
    } else {
      return Fault;
    }
    return Success;
  }

  /* ---- Any interleaving over several queues ---- */

  datatype Operation =
    | PushTo(queue: nat, node: Node)
    | PopFrom(queue: nat)
    | MoveAll(from: nat, to: nat)

  datatype Outcome = Code(rc: ErrorCode) | Taken(node: Node?)

  /** Callers push nodes that no queue holds, and move between different queues. */
  ghost predicate Legal(fifos: seq<seq<Node>>, op: Operation) {
    match op
    case PushTo(q, node) => q < |fifos| && forall i | 0 <= i < |fifos| :: node !in fifos[i]
    case PopFrom(q) => q < |fifos|
    case MoveAll(from, to) => from < |fifos| && to < |fifos| && from != to
  }

  /** Bounded first-in first-out sequences. */
  ghost function Effect(fifos: seq<seq<Node>>, capacities: seq<int>, op: Operation): (seq<seq<Node>>, Outcome)
    requires |capacities| == |fifos| && Legal(fifos, op)
  {
    match op
    case PushTo(q, node) =>
      if |fifos[q]| >= capacities[q] then (fifos, Code(Full))
      else (fifos[q := fifos[q] + [node]], Code(Success))
    case PopFrom(q) =>
      if fifos[q] == [] then (fifos, Taken(null)) else (fifos[q := fifos[q][1..]], Taken(fifos[q][0]))
    case MoveAll(from, to) =>
      if fifos[from] == [] then (fifos, Code(Fault))
      else if |fifos[to]| + |fifos[from]| > capacities[to] then (fifos, Code(Full))
      else (fifos[to := fifos[to] + fifos[from]][from := []], Code(Success))
  }

  ghost predicate AllLegal(fifos: seq<seq<Node>>, capacities: seq<int>, ops: seq<Operation>)
    requires |capacities| == |fifos|
    decreases |ops|
  {
    ops != [] ==> Legal(fifos, ops[0]) && AllLegal(Effect(fifos, capacities, ops[0]).0, capacities, ops[1..])
  }

  ghost function Effects(fifos: seq<seq<Node>>, capacities: seq<int>, ops: seq<Operation>)
    : (seq<seq<Node>>, seq<Outcome>)
    requires |capacities| == |fifos| && AllLegal(fifos, capacities, ops)
    decreases |ops|
  {
    if ops == [] then (fifos, [])
    else
      var (next, outcome) := Effect(fifos, capacities, ops[0]);
      var (last, outcomes) := Effects(next, capacities, ops[1..]);
      (last, [outcome] + outcomes)
  }

  /** The sequences hold nodes of the pool and pairwise share none. */
  ghost predicate Unshared(fifos: seq<seq<Node>>, pool: set<Node>) {
    && (forall i, n | 0 <= i < |fifos| && n in fifos[i] :: n in pool)
    && (forall i, j | 0 <= i < |fifos| && 0 <= j < |fifos| && i != j :: Disjoint(fifos[i], fifos[j]))
  }

  /** Well-formed queues, pairwise sharing nothing, over a pool of nodes. */
  ghost predicate AllSeparate(queues: seq<Queue>, pool: set<Node>)
    reads queues, pool
  {
    && Unshared(Fifos(queues), pool)
    && (forall i | 0 <= i < |queues| :: queues[i].nodes == Fifos(queues)[i] && queues[i].Valid())
    && (forall i, j | 0 <= i < |queues| && 0 <= j < |queues| && i != j :: queues[i] != queues[j])
  }

  ghost function Fifos(queues: seq<Queue>): seq<seq<Node>>
    reads queues
  {
    seq(|queues|, i requires 0 <= i < |queues| reads queues => queues[i].nodes)
  }

  ghost function Capacities(queues: seq<Queue>): seq<int> {
    seq(|queues|, i requires 0 <= i < |queues| => queues[i].capacity)
  }

  lemma PushUnshared(fifos: seq<seq<Node>>, pool: set<Node>, q: nat, node: Node)
    requires Unshared(fifos, pool) && Legal(fifos, PushTo(q, node)) && node in pool
    ensures Unshared(fifos[q := fifos[q] + [node]], pool)
  {
  }

  lemma PopUnshared(fifos: seq<seq<Node>>, pool: set<Node>, q: nat)
    requires Unshared(fifos, pool) && q < |fifos| && fifos[q] != []
    ensures Unshared(fifos[q := fifos[q][1..]], pool)
  {
  }

  lemma MoveUnshared(fifos: seq<seq<Node>>, pool: set<Node>, from: nat, to: nat)
    requires Unshared(fifos, pool) && Legal(fifos, MoveAll(from, to))
    ensures Unshared(fifos[to := fifos[to] + fifos[from]][from := []], pool)
  {
    var moved := fifos[to := fifos[to] + fifos[from]][from := []];
    forall i, j | 0 <= i < |moved| && 0 <= j < |moved| && i != j ensures Disjoint(moved[i], moved[j]) {
      assert Disjoint(fifos[i], fifos[j]) && (i != from ==> Disjoint(fifos[i], fifos[from]));
      assert j != from ==> Disjoint(fifos[from], fifos[j]);
    }
  }

  method PushAt(queues: seq<Queue>, ghost pool: set<Node>, q: nat, node: Node) returns (rc: ErrorCode)
    requires AllSeparate(queues, pool) && Legal(Fifos(queues), PushTo(q, node)) && node in pool
    modifies queues, pool
    ensures AllSeparate(queues, pool)
    ensures (Fifos(queues), Code(rc)) == Effect(old(Fifos(queues)), Capacities(queues), PushTo(q, node))
  {
    ghost var fifos := Fifos(queues);
    rc := Push(queues[q], node);
    forall i | 0 <= i < |queues| && i != q ensures queues[i].Valid() && queues[i].nodes == fifos[i] {
      assert Disjoint(fifos[i], fifos[q]);
    }
    assert Fifos(queues) == fifos[q := queues[q].nodes];
    if rc == Success { PushUnshared(fifos, pool, q, node); }
  }

  method PopAt(queues: seq<Queue>, ghost pool: set<Node>, q: nat) returns (top: Node?)
    requires AllSeparate(queues, pool) && q < |queues|
    modifies queues, pool
    ensures AllSeparate(queues, pool)
    ensures (Fifos(queues), Taken(top)) == Effect(old(Fifos(queues)), Capacities(queues), PopFrom(q))
  {
    ghost var fifos := Fifos(queues);
    top := Pop(queues[q]);
    assert Fifos(queues) == fifos[q := queues[q].nodes];
    if fifos[q] != [] { PopUnshared(fifos, pool, q); }
  }

  /** A move touches its two queues and nodes of theirs, so every other queue stands. */
  method MoveBetween(queues: seq<Queue>, ghost pool: set<Node>, from: nat, to: nat) returns (rc: ErrorCode)
    requires AllSeparate(queues, pool) && from < |queues| && to < |queues| && from != to
    modifies queues, pool
    ensures forall i | 0 <= i < |queues| :: queues[i].Valid()
    ensures forall i | 0 <= i < |queues| && i != from && i != to :: queues[i].nodes == old(queues[i].nodes)
    ensures rc == if old(queues[from].nodes) == [] then Fault
                  else if |old(queues[to].nodes)| + |old(queues[from].nodes)| > queues[to].capacity then Full
                  else Success
    ensures rc == Success ==> queues[to].nodes == old(queues[to].nodes + queues[from].nodes) && queues[from].nodes == []
    ensures rc != Success ==> queues[to].nodes == old(queues[to].nodes) && queues[from].nodes == old(queues[from].nodes)
  {
    ghost var fifos := Fifos(queues);
    assert Disjoint(fifos[from], fifos[to]);
    rc := Move(queues[from], queues[to]);
    forall i | 0 <= i < |queues| && i != from && i != to
      ensures queues[i].Valid() && queues[i].nodes == fifos[i]
    {
      assert Disjoint(fifos[i], fifos[from]) && Disjoint(fifos[i], fifos[to]);
    }
  }

  method MoveAt(queues: seq<Queue>, ghost pool: set<Node>, from: nat, to: nat) returns (rc: ErrorCode)
    requires AllSeparate(queues, pool) && Legal(Fifos(queues), MoveAll(from, to))
    modifies queues, pool
    ensures AllSeparate(queues, pool)
    ensures (Fifos(queues), Code(rc)) == Effect(old(Fifos(queues)), Capacities(queues), MoveAll(from, to))
  {
    ghost var fifos := Fifos(queues);
    rc := MoveBetween(queues, pool, from, to);
    if rc == Success {
      assert Fifos(queues) == fifos[to := fifos[to] + fifos[from]][from := []];
      MoveUnshared(fifos, pool, from, to);
    } else {
      assert Fifos(queues) == fifos;
    }
  }

  /** Under any interleaving of the three operations the pointer structures behave as bounded
      first-in first-out sequences, result codes included. */
  method RunAll(queues: seq<Queue>, ghost pool: set<Node>, ops: seq<Operation>) returns (outcomes: seq<Outcome>)
    requires AllSeparate(queues, pool) && AllLegal(Fifos(queues), Capacities(queues), ops)
    requires forall op | op in ops && op.PushTo? :: op.node in pool
    modifies queues, pool
    ensures AllSeparate(queues, pool)
    ensures (Fifos(queues), outcomes) == Effects(old(Fifos(queues)), Capacities(queues), ops)
    decreases |ops|
  {
    if ops == [] {
      return [];
    }
    var first: Outcome;
    match ops[0] {
      case PushTo(q, node) =>
        var rc := PushAt(queues, pool, q, node);
        first := Code(rc);
      case PopFrom(q) =>
        var top := PopAt(queues, pool, q);
        first := Taken(top);
      case MoveAll(from, to) =>
        var rc := MoveAt(queues, pool, from, to);
        first := Code(rc);
    }
    var rest := RunAll(queues, pool, ops[1..]);
    outcomes := [first] + rest;
  }
}
