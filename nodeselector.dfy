/** The strategy that picks which node the engine processes next: a FIFO of
    ready nodes. After a node is processed, each of its output lists is moved
    onto the input deque its link points at, every target that has become
    ready joins the queue, and finally the processed node rejoins it if it is
    still ready. The queue holds the keys of `pp.nodes`; two keys never share
    a record, so a key stands for its record as Python's identity test does. */
module NodeSelector {
  import opened Wrappers
  import opened BBPackets
  import opened RNodes
  import opened PortIds
  import opened NodeStates

  /** `pp.links`: node id, then output index, to the input port it feeds. */
  type Links = map<int, map<int, PortID>>

  /** The queue's invariant: keys of `s`, each at most once. */
  predicate QueueOk(s: Sys, q: seq<int>) {
    NoDup(q) && forall i :: 0 <= i < |q| ==> q[i] in s
  }

  /** `if ready and k not in rdy: rdy.append(k)`. */
  function Enqueue(q: seq<int>, k: int, ready: bool): (r: seq<int>)
    ensures forall x :: x in r <==> x in q || (ready && x == k)
    ensures |r| >= |q| && r[..|q|] == q
    ensures NoDup(q) ==> NoDup(r)
  {
    if ready && k !in q then q + [k] else q
  }

  /** `pp.links[id][idx]` for the node at key `k`, then the record it names
      and the input deque `inputs[port]` of that record (a negative port
      counts from the end, as Python's list indexing does). */
  function Target(links: Links, s: Sys, k: int, idx: int): (r: Result<(int, nat)>)
    requires k in s
    ensures r.Ok? ==> r.value.0 in s && r.value.1 < |s[r.value.0].inputs|
    ensures r == Err(KeyError) <==>
      s[k].id !in links || idx !in links[s[k].id] || links[s[k].id][idx].objId !in s
    ensures r.Err? ==> r.error == KeyError || r.error == IndexError
  {
    var id := s[k].id;
    if id !in links || idx !in links[id] then Err(KeyError)
    else
      var p := links[id][idx];
      if p.objId !in s then Err(KeyError)
      else
        match PyIndex(p.port, |s[p.objId].inputs|)
        case None => Err(IndexError)
        case Some(j) => Ok((p.objId, j))
  }

  /** One turn of `update`'s loop: output list `idx` of node `k` is appended
      to the target deque and cleared, then the target is asked whether it is
      ready and joins the queue if so. */
  function Forward(links: Links, s: Sys, q: seq<int>, k: int, idx: nat): (r: Result<(Sys, seq<int>)>)
    requires k in s && idx < |s[k].outputs|
  {
    var (t, j) :- Target(links, s, k, idx);
    var s1 := ExtendAt(s, t, j, s[k].outputs[idx]);
    var s2 := ClearAt(s1, k, idx);
    var (b, s3) :- ReadyAt(s2, t);
    Ok((s3, Enqueue(q, t, b)))
  }

  /** What one turn moves: exactly the packets of output list `idx` land,
      in order, behind what the target deque held; that list is left empty;
      every other deque and list keeps its contents. */
  lemma ForwardMoves(links: Links, s: Sys, q: seq<int>, k: int, idx: nat)
    requires k in s && idx < |s[k].outputs|
    requires Forward(links, s, q, k, idx).Ok?
    ensures Target(links, s, k, idx).Ok?
    ensures var (t, j) := Target(links, s, k, idx).value;
      var s' := Forward(links, s, q, k, idx).value.0;
      SameShape(s, s') &&
      s'[t].inputs[j] == s[t].inputs[j] + s[k].outputs[idx] &&
      s'[k].outputs[idx] == [] &&
      (forall i, p :: i in s && 0 <= p < |s[i].inputs| && (i, p) != (t, j) ==> s'[i].inputs[p] == s[i].inputs[p]) &&
      (forall i, p :: i in s && 0 <= p < |s[i].outputs| && (i, p) != (k, idx) ==> s'[i].outputs[p] == s[i].outputs[p])
  {
  }

  /** One turn empties output list `idx` of the processed node and leaves
      its other output lists as they were. */
  lemma ForwardOutputs(links: Links, s: Sys, q: seq<int>, k: int, idx: nat)
    requires k in s && idx < |s[k].outputs|
    requires Forward(links, s, q, k, idx).Ok?
    ensures Forward(links, s, q, k, idx).value.0[k].outputs == s[k].outputs[idx := []]
  {
    var (t, j) := Target(links, s, k, idx).value;
    var s1 := ExtendAt(s, t, j, s[k].outputs[idx]);
    assert s1[k].outputs == s[k].outputs;
  }

  /** `update`'s loop from output index `idx` on. */
  function UpdateFrom(links: Links, s: Sys, q: seq<int>, k: int, idx: nat): (r: Result<(Sys, seq<int>)>)
    requires k in s && idx <= |s[k].outputs|
    decreases |s[k].outputs| - idx
    ensures r.Ok? ==> SameShape(s, r.value.0)
    ensures r.Ok? && QueueOk(s, q) ==> QueueOk(r.value.0, r.value.1)
    ensures r.Ok? ==> k in r.value.0 && r.value.0[k].outputs == ClearedFrom(s[k].outputs, idx)
  {
    if idx == |s[k].outputs| then
      assert ClearedFrom(s[k].outputs, idx) == s[k].outputs;
      Ok((s, q))
    else
      var (s1, q1) :- Forward(links, s, q, k, idx);
      ForwardKeeps(links, s, q, k, idx);
      ForwardOutputs(links, s, q, k, idx);
      ClearsOneMore(s[k].outputs, idx);
      UpdateFrom(links, s1, q1, k, idx + 1)
  }

  /** One turn keeps the shape of the records and the queue's invariant. */
  lemma ForwardKeeps(links: Links, s: Sys, q: seq<int>, k: int, idx: nat)
    requires k in s && idx < |s[k].outputs|
    ensures var r := Forward(links, s, q, k, idx);
      r.Ok? ==> SameShape(s, r.value.0) && (QueueOk(s, q) ==> QueueOk(r.value.0, r.value.1))
  {
  }

  /** `update(pp, node_state)` for the record at key `k`: the loop over the
      output lists, then the node itself rejoins the queue if still ready. */
  function UpdateSpec(links: Links, s: Sys, q: seq<int>, k: int): (r: Result<(Sys, seq<int>)>)
    requires k in s
    ensures r.Ok? ==> SameShape(s, r.value.0)
    ensures r.Ok? && QueueOk(s, q) ==> QueueOk(r.value.0, r.value.1)
  {
    var (s1, q1) :- UpdateFrom(links, s, q, k, 0);
    var (b, s2) :- ReadyAt(s1, k);
    Ok((s2, Enqueue(q1, k, b)))
  }

  /** The output lists `o` once those from `idx` on are emptied. */
  function ClearedFrom(o: seq<seq<BBPacket>>, idx: nat): (r: seq<seq<BBPacket>>)
    ensures |r| == |o| && forall i :: 0 <= i < |o| ==> r[i] == if i < idx then o[i] else []
  {
    seq(|o|, i requires 0 <= i < |o| => if i < idx then o[i] else [])
  }

  /** Emptying list `idx` before emptying the lists from `idx + 1` on is
      emptying the lists from `idx` on. */
  lemma ClearsOneMore(o: seq<seq<BBPacket>>, idx: nat)
    requires idx < |o|
    ensures ClearedFrom(o[idx := []], idx + 1) == ClearedFrom(o, idx)
  {
    assert forall i :: 0 <= i < |o| ==> ClearedFrom(o[idx := []], idx + 1)[i] == ClearedFrom(o, idx)[i];
  }

  /** After `update`, every output list of the processed node is empty: all
      it produced has been handed on. */
  lemma UpdateClears(links: Links, s: Sys, q: seq<int>, k: int)
    requires k in s && UpdateSpec(links, s, q, k).Ok?
    ensures var s' := UpdateSpec(links, s, q, k).value.0;
      forall i :: 0 <= i < |s'[k].outputs| ==> s'[k].outputs[i] == []
  {
    assert UpdateSpec(links, s, q, k).value.0[k].outputs == UpdateFrom(links, s, q, k, 0).value.0[k].outputs;
  }

  /** A node with an output whose id has no entry in the link table makes
      `update` raise `KeyError`, even when that output list is empty. */
  lemma UnlinkedRaises(links: Links, s: Sys, q: seq<int>, k: int)
    requires k in s && |s[k].outputs| > 0 && s[k].id !in links
    ensures UpdateSpec(links, s, q, k) == Err(KeyError)
  {
    assert Forward(links, s, q, k, 0) == Err(KeyError);
  }

  /** The processed node is the last to be offered a place in the queue: it
      is there afterwards exactly when it was already queued, or some target
      or its own final `is_ready` answered true. Here: when its final answer
      is true, it is queued. */
  lemma ReadyNodeRequeued(links: Links, s: Sys, q: seq<int>, k: int)
    requires k in s && UpdateFrom(links, s, q, k, 0).Ok?
    requires var s1 := UpdateFrom(links, s, q, k, 0).value.0;
      ReadyAt(s1, k).Ok? && ReadyAt(s1, k).value.0
    ensures UpdateSpec(links, s, q, k).Ok? && k in UpdateSpec(links, s, q, k).value.1
  {
  }

  /** `select_next`, `process` and `update` once: the front key is taken
      off, its node processed and the records and queue updated. */
  function StepSpec(links: Links, s: Sys, q: seq<int>): (r: Result<(Sys, seq<int>)>)
    requires q != [] && q[0] in s
    ensures r.Ok? ==> SameShape(s, r.value.0)
    ensures r.Ok? && QueueOk(s, q) ==> QueueOk(r.value.0, r.value.1)
  {
    var s1 :- ProcessAt(s, q[0]);
    UpdateSpec(links, s1, q[1..], q[0])
  }

  /** `gen_nodes`: steps until the queue is empty, for at most `fuel` steps.
      With fuel left over the result's queue is empty; otherwise the run was
      cut short. */
  function Run(links: Links, s: Sys, q: seq<int>, fuel: nat): (r: Result<(Sys, seq<int>)>)
    requires QueueOk(s, q)
    decreases fuel
    ensures r.Ok? ==> SameShape(s, r.value.0) && QueueOk(r.value.0, r.value.1)
  {
    if q == [] || fuel == 0 then Ok((s, q))
    else
      var (s1, q1) :- StepSpec(links, s, q);
      Run(links, s1, q1, fuel - 1)
  }

  /** A run that does not stop at once takes one step, then goes on. */
  lemma RunStepOk(links: Links, s: Sys, q: seq<int>, fuel: nat)
    requires QueueOk(s, q) && q != [] && fuel > 0 && StepSpec(links, s, q).Ok?
    ensures QueueOk(StepSpec(links, s, q).value.0, StepSpec(links, s, q).value.1)
    ensures Run(links, s, q, fuel) == Run(links, StepSpec(links, s, q).value.0, StepSpec(links, s, q).value.1, fuel - 1)
  {
  }

  /** A step that raises ends the run with the same exception. */
  lemma RunStepErr(links: Links, s: Sys, q: seq<int>, fuel: nat)
    requires QueueOk(s, q) && q != [] && fuel > 0 && StepSpec(links, s, q).Err?
    ensures Run(links, s, q, fuel) == Err(StepSpec(links, s, q).error)
  {
  }

  /** A run on an empty queue returns at once, whatever fuel is left: the
      loop stops exactly when the queue is empty (a non-empty queue takes a
      step, `RunStepOk`). */
  lemma RunEmpty(links: Links, s: Sys, fuel: nat)
    ensures Run(links, s, [], fuel) == Ok((s, []))
  {
  }

  /** Whether the record at `k` answers `is_ready` with True. */
  predicate AnswersReady(s: Sys, k: int)
    requires k in s
  {
    ReadyAt(s, k).Ok? && ReadyAt(s, k).value.0
  }

  /** Every key of `order` answers `is_ready` without raising, each asked
      of its record as it stands in `s`. */
  predicate AllAnswer(s: Sys, order: seq<int>)
    requires forall i :: 0 <= i < |order| ==> order[i] in s
  {
    forall i :: 0 <= i < |order| ==> ReadyAt(s, order[i]).Ok?
  }

  /** All of `order` answers exactly when its first key and the rest do. */
  lemma AllAnswerCons(s: Sys, order: seq<int>)
    requires order != [] && forall i :: 0 <= i < |order| ==> order[i] in s
    ensures AllAnswer(s, order) <==> ReadyAt(s, order[0]).Ok? && AllAnswer(s, order[1..])
  {
    if ReadyAt(s, order[0]).Ok? && AllAnswer(s, order[1..]) {
      forall i | 0 < i < |order| ensures ReadyAt(s, order[i]).Ok? {
        assert order[i] == order[1..][i - 1];
      }
    }
  }

  /** The keys of `order` whose record in `s` answers ready, in their order. */
  function ReadyKeys(s: Sys, order: seq<int>): (r: seq<int>)
    requires forall i :: 0 <= i < |order| ==> order[i] in s
    decreases |order|
    ensures forall x :: x in r <==> x in order && x in s && AnswersReady(s, x)
  {
    if order == [] then []
    else (if AnswersReady(s, order[0]) then [order[0]] else []) + ReadyKeys(s, order[1..])
  }

  /** Asking the record at `k` leaves the answers of the other records as
      they were: `is_ready` on one node reads only that node's record. */
  lemma {:induction false} ReadyKeysFrame(s: Sys, k: int, x: NS, order: seq<int>)
    requires k in s && k !in order && forall i :: 0 <= i < |order| ==> order[i] in s
    decreases |order|
    ensures ReadyKeys(s[k := x], order) == ReadyKeys(s, order)
  {
    if order != [] {
      assert k !in order[1..];
      ReadyKeysFrame(s, k, x, order[1..]);
      assert s[k := x][order[0]] == s[order[0]];
    }
  }

  /** Likewise, whether the other records answer without raising does not
      depend on the record at `k`. */
  lemma AllAnswerFrame(s: Sys, k: int, x: NS, order: seq<int>)
    requires k in s && k !in order && forall i :: 0 <= i < |order| ==> order[i] in s
    ensures AllAnswer(s[k := x], order) <==> AllAnswer(s, order)
  {
    forall i | 0 <= i < |order| ensures ReadyAt(s[k := x], order[i]).Ok? == ReadyAt(s, order[i]).Ok? {
      assert s[k := x][order[i]] == s[order[i]];
    }
  }

  /** A key order without repeats keeps none after its first key. */
  lemma NoDupTail(order: seq<int>)
    requires order != []
    ensures NoDup(order) ==> NoDup(order[1..]) && order[0] !in order[1..]
  {
    if NoDup(order) {
      forall i, j | 0 <= i < j < |order[1..]| ensures order[1..][i] != order[1..][j] {
        assert order[1..][i] == order[i + 1] && order[1..][j] == order[j + 1];
      }
      forall j | 0 <= j < |order[1..]| ensures order[1..][j] != order[0] {
        assert order[1..][j] == order[j + 1];
      }
    }
  }

  /** `PrioritySelector.__init__` from position `n` of the order of
      `pp.nodes` on: each record in turn is asked whether it is ready and
      appended to the queue if so (there is no membership test here). */
  function InitFrom(s: Sys, q: seq<int>, order: seq<int>): (r: Result<(Sys, seq<int>)>)
    requires forall i :: 0 <= i < |order| ==> order[i] in s
    decreases |order|
    ensures r.Ok? ==> SameShape(s, r.value.0)
    ensures r.Ok? ==> forall i :: i in s ==> r.value.0[i].inputs == s[i].inputs && r.value.0[i].outputs == s[i].outputs
  {
    if order == [] then Ok((s, q))
    else
      var k := order[0];
      var (b, s1) :- ReadyAt(s, k);
      InitFrom(s1, if b then q + [k] else q, order[1..])
  }

  /** Concatenating key sequences is associative. */
  lemma AppendAssoc(a: seq<int>, b: seq<int>, c: seq<int>)
    ensures a + (b + c) == (a + b) + c
  {
  }

  /** What the loop of `__init__` queues: over distinct keys it raises
      exactly when some record's `is_ready` raises, and otherwise appends
      exactly the keys whose record answered True, in their order. */
  lemma {:induction false} InitFromReady(s: Sys, q: seq<int>, order: seq<int>)
    requires NoDup(order) && forall i :: 0 <= i < |order| ==> order[i] in s
    decreases |order|
    ensures InitFrom(s, q, order).Ok? <==> AllAnswer(s, order)
    ensures InitFrom(s, q, order).Ok? ==> InitFrom(s, q, order).value.1 == q + ReadyKeys(s, order)
  {
    if order != [] {
      var k := order[0];
      NoDupTail(order);
      AllAnswerCons(s, order);
      if NSReady(s[k]).Ok? {
        var (b, x) := NSReady(s[k]).value;
        var q1 := if b then q + [k] else q;
        ReadyKeysFrame(s, k, x, order[1..]);
        AllAnswerFrame(s, k, x, order[1..]);
        InitFromReady(s[k := x], q1, order[1..]);
        assert InitFrom(s, q, order) == InitFrom(s[k := x], q1, order[1..]);
        assert AnswersReady(s, k) == b;
        var rest := ReadyKeys(s, order[1..]);
        assert ReadyKeys(s, order) == (if b then [k] else []) + rest;
        if b {
          AppendAssoc(q, [k], rest);
        } else {
          assert [] + rest == rest;
        }
      }
    }
  }

  /** With distinct keys not already queued, no key is queued twice. */
  lemma {:induction false} InitFromNoDup(s: Sys, q: seq<int>, order: seq<int>)
    requires forall i :: 0 <= i < |order| ==> order[i] in s
    requires InitFrom(s, q, order).Ok?
    requires NoDup(q) && NoDup(order) && forall x :: x in q ==> x !in order
    decreases |order|
    ensures NoDup(InitFrom(s, q, order).value.1)
  {
    if order != [] {
      var k := order[0];
      var (b, s1) := ReadyAt(s, k).value;
      var q1 := if b then q + [k] else q;
      assert k in order;
      if b {
        forall i, j | 0 <= i < j < |q1| ensures q1[i] != q1[j] {
          if j < |q| {
            assert q1[i] == q[i] && q1[j] == q[j];
          } else {
            assert q1[i] in q;
          }
        }
      }
      forall i, j | 0 <= i < j < |order[1..]| ensures order[1..][i] != order[1..][j] {
        assert order[1..][i] == order[i + 1] && order[1..][j] == order[j + 1];
      }
      forall x | x in q1 ensures x !in order[1..] {
        if x != k {
          assert x in q;
        } else {
          assert forall j :: 0 < j < |order| ==> order[j] != order[0];
        }
      }
      InitFromNoDup(s1, q1, order[1..]);
    }
  }

  /** `PrioritySelector.__init__` over the keys of `pp.nodes` in order. */
  function InitSpec(s: Sys, order: seq<int>): (r: Result<(Sys, seq<int>)>)
    requires forall i :: 0 <= i < |order| ==> order[i] in s
  {
    InitFrom(s, [], order)
  }

  /** What `__init__` builds from the keys of `pp.nodes`, each once: it
      raises exactly when some node's `is_ready` raises, and otherwise its
      queue is exactly the ready keys in the order of `pp.nodes`. */
  lemma InitSpecReady(s: Sys, order: seq<int>)
    requires NoDup(order) && forall i :: 0 <= i < |order| ==> order[i] in s
    ensures InitSpec(s, order).Ok? <==> AllAnswer(s, order)
    ensures InitSpec(s, order).Ok? ==> InitSpec(s, order).value.1 == ReadyKeys(s, order)
  {
    InitFromReady(s, [], order);
    assert [] + ReadyKeys(s, order) == ReadyKeys(s, order);
  }

  /** The queue built by `__init__` from the keys of `pp.nodes`, each once,
      satisfies the queue's invariant. */
  lemma InitQueueOk(s: Sys, order: seq<int>)
    requires NoDup(order) && forall i :: 0 <= i < |order| ==> order[i] in s
    requires InitSpec(s, order).Ok?
    ensures QueueOk(InitSpec(s, order).value.0, InitSpec(s, order).value.1)
  {
    var (s', q) := InitSpec(s, order).value;
    InitSpecReady(s, order);
    InitFromNoDup(s, [], order);
    forall i | 0 <= i < |q| ensures q[i] in s' {
      assert q[i] in q;
    }
  }

  /** `PrioritySelector`: the keys of the ready records, front first. The
      selector is never one of the objects the records own. */
  class PrioritySelector {
    var rdy: seq<int>

    /** An empty queue; `Init` fills it as `__init__` goes on to do. */
    constructor()
      ensures rdy == []
    {
      rdy := [];
    }

    /** The loop of `__init__` over `pp.nodes`, whose keys in dict order are
        `order`. */
    method Init(nodes: map<int, NodeState>, order: seq<int>) returns (r: Result<()>)
      requires Disjoint(nodes) && this !in NodesRepr(nodes)
      requires forall i :: 0 <= i < |order| ==> order[i] in nodes
      modifies this, NodesRepr(nodes)
      ensures r.Ok? ==> InitSpec(old(NodesAbs(nodes)), order) == Ok((NodesAbs(nodes), rdy))
      ensures r.Err? ==> InitSpec(old(NodesAbs(nodes)), order) == Err(r.error)
    {
      ghost var s0 := NodesAbs(nodes);
      var q: seq<int> := [];
      var n := 0;
      while n < |order|
        invariant 0 <= n <= |order|
        invariant InitSpec(s0, order) == InitFrom(NodesAbs(nodes), q, order[n..])
      {
        var k := order[n];
        InNodesRepr(nodes, k);
        var b :- ReadyOf(nodes, k);
        if b {
          q := q + [k];
        }
        assert order[n..][1..] == order[n + 1..];
        n := n + 1;
      }
      Store(nodes, q);
      r := Ok(());
    }

    /** Replaces the queue; the records are left alone. */
    method Store(ghost nodes: map<int, NodeState>, q: seq<int>)
      requires this !in NodesRepr(nodes)
      modifies this
      ensures rdy == q && NodesAbs(nodes) == old(NodesAbs(nodes))
    {
      ghost var s := NodesAbs(nodes);
      rdy := q;
      forall i | i in nodes
        ensures nodes[i].Abs() == s[i]
      {
        InNodesRepr(nodes, i);
      }
      AbsFromPoints(nodes, s);
    }

    /** `select_next`: `popleft`, which raises `IndexError` on an empty
        queue. The records `nodes` are untouched. */
    method SelectNext(ghost nodes: map<int, NodeState>) returns (r: Result<int>)
      requires this !in NodesRepr(nodes)
      modifies this
      ensures NodesAbs(nodes) == old(NodesAbs(nodes))
      ensures old(rdy) == [] ==> r == Err(IndexError) && rdy == old(rdy)
      ensures old(rdy) != [] ==> r == Ok(old(rdy)[0]) && rdy == old(rdy)[1..]
    {
      if rdy == [] {
        return Err(IndexError);
      }
      r := Ok(rdy[0]);
      Store(nodes, rdy[1..]);
    }

    /** `is_finished`: whether no ready node is left in the queue. */
    function IsFinished(): (b: bool)
      reads this
      ensures b <==> rdy == []
    {
      |rdy| <= 0
    }

    /** `update(pp, node_state)` for the record at key `k`. */
    method Update(links: Links, nodes: map<int, NodeState>, k: int) returns (r: Result<()>)
      requires Disjoint(nodes) && k in nodes && this !in NodesRepr(nodes)
      modifies this, NodesRepr(nodes)
      ensures r.Ok? ==> UpdateSpec(links, old(NodesAbs(nodes)), old(rdy), k) == Ok((NodesAbs(nodes), rdy))
      ensures r.Err? ==> UpdateSpec(links, old(NodesAbs(nodes)), old(rdy), k) == Err(r.error)
    {
      var q :- UpdateLoop(links, nodes, k, rdy);
      InNodesRepr(nodes, k);
      var b :- ReadyOf(nodes, k);
      Store(nodes, Enqueue(q, k, b));
      r := Ok(());
    }

    /** `gen_nodes(pp)`, for at most `fuel` turns of its loop: while the
        queue is not empty, the front record is taken off, processed and
        handed to `update`. */
    method GenNodes(links: Links, nodes: map<int, NodeState>, fuel: nat) returns (r: Result<()>)
      requires Disjoint(nodes) && this !in NodesRepr(nodes)
      requires QueueOk(NodesAbs(nodes), rdy)
      modifies this, NodesRepr(nodes)
      ensures r.Ok? ==> Run(links, old(NodesAbs(nodes)), old(rdy), fuel) == Ok((NodesAbs(nodes), rdy))
      ensures r.Err? ==> Run(links, old(NodesAbs(nodes)), old(rdy), fuel) == Err(r.error)
    {
      ghost var res := Run(links, NodesAbs(nodes), rdy, fuel);
      var steps := fuel;
      while steps > 0 && !IsFinished()
        invariant QueueOk(NodesAbs(nodes), rdy)
        invariant res == Run(links, NodesAbs(nodes), rdy, steps)
        decreases steps
      {
        ghost var s := NodesAbs(nodes);
        ghost var q := rdy;
        var u := Turn(links, nodes);
        if u.Err? {
          RunStepErr(links, s, q, steps);
          return Err(u.error);
        }
        steps := steps - 1;
        assert res == Run(links, s, q, steps + 1);
        RunStepOk(links, s, q, steps + 1);
        assert StepSpec(links, s, q).value.0 == NodesAbs(nodes);
        assert StepSpec(links, s, q).value.1 == rdy;
        assert Run(links, s, q, steps + 1) == Run(links, NodesAbs(nodes), rdy, steps);
      }
      r := Ok(());
    }

    /** One turn of the loop of `gen_nodes`: `select_next`, `process` on the
        record it names, and `update`. */
    method Turn(links: Links, nodes: map<int, NodeState>) returns (r: Result<()>)
      requires Disjoint(nodes) && this !in NodesRepr(nodes)
      requires QueueOk(NodesAbs(nodes), rdy) && rdy != []
      modifies this, NodesRepr(nodes)
      ensures r.Ok? ==> StepSpec(links, old(NodesAbs(nodes)), old(rdy)) == Ok((NodesAbs(nodes), rdy))
      ensures r.Err? ==> StepSpec(links, old(NodesAbs(nodes)), old(rdy)) == Err(r.error)
    {
      var sel := SelectNext(nodes);
      var k := sel.value;
      InNodesRepr(nodes, k);
      r := ProcessOf(nodes, k);
      if r.Ok? {
        r := Update(links, nodes, k);
      }
    }
  }

  /** One turn of `update`'s loop on the records: `pp.links[id][idx]`, the
      target deque, `extend`, `clear`, the target's `is_ready`, and the
      queue `q` the target may join. */
  method ForwardOne(links: Links, nodes: map<int, NodeState>, k: int, idx: nat, q: seq<int>)
      returns (r: Result<seq<int>>)
    requires Disjoint(nodes) && k in nodes && idx < |nodes[k].outputs|
    modifies NodesRepr(nodes)
    ensures r.Ok? ==> Forward(links, old(NodesAbs(nodes)), q, k, idx) == Ok((NodesAbs(nodes), r.value))
    ensures r.Err? ==> Forward(links, old(NodesAbs(nodes)), q, k, idx) == Err(r.error)
  {
    ghost var s := NodesAbs(nodes);
    var ns := nodes[k];
    var id := ns.node.Id();
    if id !in links || idx !in links[id] {
      return Err(KeyError);
    }
    var p := links[id][idx];
    if p.objId !in nodes {
      return Err(KeyError);
    }
    var j := PyIndex(p.port, |nodes[p.objId].inputs|);
    if j.None? {
      return Err(IndexError);
    }
    assert Target(links, s, k, idx) == Ok((p.objId, j.value));
    var items := ns.outputs[idx];
    InNodesRepr(nodes, p.objId);
    InNodesRepr(nodes, k);
    Extend(nodes, p.objId, j.value, items);
    Clear(nodes, k, idx);
    var b :- ReadyOf(nodes, p.objId);
    r := Ok(Enqueue(q, p.objId, b));
  }

  /** The loop of `update` over the output lists of the record at key `k`,
      with the queue `q` it may extend. */
  method UpdateLoop(links: Links, nodes: map<int, NodeState>, k: int, q0: seq<int>)
      returns (r: Result<seq<int>>)
    requires Disjoint(nodes) && k in nodes
    modifies NodesRepr(nodes)
    ensures r.Ok? ==> UpdateFrom(links, old(NodesAbs(nodes)), q0, k, 0) == Ok((NodesAbs(nodes), r.value))
    ensures r.Err? ==> UpdateFrom(links, old(NodesAbs(nodes)), q0, k, 0) == Err(r.error)
  {
    ghost var s0 := NodesAbs(nodes);
    var q := q0;
    var n := |nodes[k].outputs|;
    var idx := 0;
    while idx < n
      invariant 0 <= idx <= n == |NodesAbs(nodes)[k].outputs|
      invariant UpdateFrom(links, s0, q0, k, 0) == UpdateFrom(links, NodesAbs(nodes), q, k, idx)
    {
      ghost var s := NodesAbs(nodes);
      ForwardKeeps(links, s, q, k, idx);
      q :- ForwardOne(links, nodes, k, idx, q);
      idx := idx + 1;
    }
    r := Ok(q);
  }
}
