/**
 * The sequential skeleton of RequestChain: a priority queue of data
 * requests ordered by internalID, a pending-request counter, and an
 * optional terminal request run once after the queue has drained.
 *
 * What a data request does when handled happens outside this model; its
 * boolean answer is part of the request value. A request's completion
 * callback is taken to fire before handle() moves on (completion is
 * synchronous), and `Handle` returns the events it caused as a trace.
 */
module Requests {
  import opened Wrappers

  /** A pending data request: its priority and the answer its handle() gives. */
  datatype DataRequest = DataRequest(internalID: int, outcome: bool)

  /** The terminal request; `id` tells instances apart. */
  datatype ShutdownRequest = ShutdownRequest(id: nat)

  /** What handle() does, in order. */
  datatype Event =
    | RecipientAdded(request: DataRequest)
    | Dispatched(request: DataRequest, ok: bool)
    | Completed(request: DataRequest, count: int)
    | LastHandled(last: ShutdownRequest)

  /** Non-decreasing internalID, the order the queue's comparator imposes. */
  predicate SortedById(rs: seq<DataRequest>)
  {
    forall i, j :: 0 <= i < j < |rs| ==> rs[i].internalID <= rs[j].internalID
  }

  /**
   * Three events per dispatched request, starting from counter value
   * `count`: its recipient is added, it is dispatched with its answer, and
   * it completes, the recipient leaving the counter one lower.
   */
  function DispatchEvents(order: seq<DataRequest>, count: int): (t: seq<Event>)
    ensures |t| == 3 * |order|
  {
    if order == [] then [] else RequestEvents(order[0], count - 1) + DispatchEvents(order[1..], count - 1)
  }

  /** The events of one request whose completion leaves the counter at `after`. */
  function RequestEvents(r: DataRequest, after: int): seq<Event>
  {
    [RecipientAdded(r), Dispatched(r, r.outcome), Completed(r, after)]
  }

  /** The events of a non-empty chain: every request in `order`, then the terminal request if set. */
  function ChainTrace(order: seq<DataRequest>, count: int, last: Option<ShutdownRequest>): seq<Event>
  {
    DispatchEvents(order, count) + (if last.Some? then [LastHandled(last.value)] else [])
  }

  /** The requests dispatched in a trace, in trace order. */
  function DispatchedIn(t: seq<Event>): seq<DataRequest>
  {
    if t == [] then []
    else (if t[0].Dispatched? then [t[0].request] else []) + DispatchedIn(t[1..])
  }

  /** A smallest internalID in a non-empty multiset: what poll() may return. */
  predicate IsMin(r: DataRequest, rs: multiset<DataRequest>)
  {
    r in rs && forall q :: q in rs ==> r.internalID <= q.internalID
  }

  /** Every non-empty queue has a head. */
  lemma {:induction false} MinExists(rs: multiset<DataRequest>)
    requires rs != multiset{}
    ensures exists r :: IsMin(r, rs)
    decreases |rs|
  {
    var x :| x in rs;
    var rest := rs - multiset{x};
    if rest == multiset{} {
      assert rs == multiset{x};
      assert IsMin(x, rs);
    } else {
      MinExists(rest);
      var m :| IsMin(m, rest);
      if x.internalID < m.internalID {
        assert IsMin(x, rs);
      } else {
        assert IsMin(m, rs);
      }
    }
  }

  class RequestChain {
    /** The PriorityQueue's contents. */
    var requests: multiset<DataRequest>
    /** The AtomicInteger counting requests not yet completed. */
    var requestCount: int
    var lastRequest: Option<ShutdownRequest>
    /** Declared with value 1 and never read or written afterwards. */
    var idPool: int

    /** Between calls the counter equals the number of queued requests. */
    predicate Valid()
      reads this
    {
      requestCount == |requests|
    }

    constructor ()
      ensures Valid()
      ensures requests == multiset{} && requestCount == 0 && lastRequest == None && idPool == 1
    {
      requests := multiset{};
      requestCount := 0;
      lastRequest := None;
      idPool := 1;
    }

    /** add(request): queue it, count it, return the chain itself; internalID is left as it is. */
    method Add(request: DataRequest) returns (chain: RequestChain)
      modifies this
      ensures chain == this
      ensures requests == old(requests) + multiset{request}
      ensures requestCount == old(requestCount) + 1
      ensures lastRequest == old(lastRequest) && idPool == old(idPool)
      ensures old(Valid()) ==> Valid()
    {
      requests := requests + multiset{request};
      requestCount := requestCount + 1;
      chain := this;
    }

    /** addLast(request): the terminal request, replacing any earlier one. */
    method AddLast(shutdownRequest: ShutdownRequest)
      modifies this
      ensures lastRequest == Some(shutdownRequest)
      ensures requests == old(requests) && requestCount == old(requestCount) && idPool == old(idPool)
    {
      lastRequest := Some(shutdownRequest);
    }

    /** requests.poll(): None when empty, otherwise removes and returns some request of smallest internalID. */
    method Poll() returns (head: Option<DataRequest>)
      modifies this
      ensures old(requests) == multiset{} ==> head == None && requests == old(requests)
      ensures old(requests) != multiset{} ==>
                && head.Some? && IsMin(head.value, old(requests)) && old(requests) == requests + multiset{head.value}
                && |requests| == |old(requests)| - 1
      ensures requestCount == old(requestCount) && lastRequest == old(lastRequest) && idPool == old(idPool)
    {
      if requests == multiset{} {
        return None;
      }
      MinExists(requests);
      var r :| IsMin(r, requests);
      requests := requests - multiset{r};
      return Some(r);
    }

    /**
     * One pass of the handle() loop: the request gets a recipient that
     * decrements the counter, it is dispatched and its answer ignored, and
     * it completes.
     */
    method Dispatch(r: DataRequest) returns (events: seq<Event>)
      modifies this
      ensures requestCount == old(requestCount) - 1
      ensures events == RequestEvents(r, requestCount)
      ensures requests == old(requests) && lastRequest == old(lastRequest) && idPool == old(idPool)
    {
      events := [RecipientAdded(r)];
      // a false answer is only reported in the log
      var ok := r.outcome;
      events := events + [Dispatched(r, ok)];
      requestCount := requestCount - 1;
      events := events + [Completed(r, requestCount)];
    }

    /**
     * handle(): an empty chain returns at once, without running the
     * terminal request. Otherwise the queue is drained, and then the
     * terminal request, if set, runs once. The result is always true.
     */
    method Handle() returns (result: bool, trace: seq<Event>, ghost order: seq<DataRequest>)
      requires Valid()
      modifies this
      ensures result
      ensures lastRequest == old(lastRequest) && idPool == old(idPool)
      ensures Valid()
      ensures old(requestCount) == 0 ==> trace == [] && requests == old(requests)
      ensures old(requestCount) != 0 ==>
                && requests == multiset{}
                && SortedById(order)
                && multiset(order) == old(requests)
                && trace == ChainTrace(order, old(requestCount), lastRequest)
    {
      var lastNum := requestCount;
      if lastNum == 0 {
        return true, [], [];
      }
      trace, order := Drain();
      if lastRequest.Some? {
        trace := trace + [LastHandled(lastRequest.value)];
      }
      result := true;
    }

    /**
     * The loop of handle(): every queued request is polled in internalID
     * order, given a recipient that decrements the counter, and dispatched,
     * whatever its answer, until poll() finds the queue empty.
     */
    method Drain() returns (trace: seq<Event>, ghost order: seq<DataRequest>)
      requires Valid()
      modifies this
      ensures requests == multiset{} && requestCount == 0
      ensures SortedById(order) && multiset(order) == old(requests)
      ensures trace == DispatchEvents(order, old(requestCount))
      ensures lastRequest == old(lastRequest) && idPool == old(idPool)
    {
      trace := [];
      order := [];
      while true
        invariant requests + multiset(order) == old(requests)
        invariant requestCount == |requests|
        invariant Precedes(order, requests)
        invariant trace == DispatchEvents(order, old(requestCount))
        invariant old(requestCount) == |requests| + |order|
        invariant lastRequest == old(lastRequest) && idPool == old(idPool)
        decreases |requests|
      {
        var request := Poll();
        if request.None? {
          break;
        }
        var r := request.value;
        var events := Dispatch(r);
        assert requestCount == old(requestCount) - |order| - 1;
        TraceStep(trace, order, r, old(requestCount));
        trace := trace + events;
        PrecedesStep(order, r, requests);
        assert multiset(order + [r]) == multiset(order) + multiset{r};
        order := order + [r];
      }
    }
  }

  /** `order` is sorted and no later than anything still queued. */
  predicate Precedes(order: seq<DataRequest>, rest: multiset<DataRequest>)
  {
    && SortedById(order)
    && forall i, q :: 0 <= i < |order| && q in rest ==> order[i].internalID <= q.internalID
  }

  /** Polling a head of the queue keeps the drained prefix sorted and ahead of the rest. */
  lemma PrecedesStep(order: seq<DataRequest>, r: DataRequest, rest: multiset<DataRequest>)
    requires Precedes(order, rest + multiset{r}) && IsMin(r, rest + multiset{r})
    ensures Precedes(order + [r], rest)
  {
    assert r in rest + multiset{r};
    forall i, q | 0 <= i < |order + [r]| && q in rest ensures (order + [r])[i].internalID <= q.internalID {
      assert q in rest + multiset{r};
    }
  }

  /** The trace after one more loop turn is the events of the longer poll order. */
  lemma TraceStep(trace: seq<Event>, order: seq<DataRequest>, r: DataRequest, count: int)
    requires trace == DispatchEvents(order, count)
    ensures trace + RequestEvents(r, count - |order| - 1) == DispatchEvents(order + [r], count)
  {
    DispatchEventsSnoc(order, r, count);
  }

  lemma {:induction false} DispatchEventsSnoc(order: seq<DataRequest>, r: DataRequest, count: int)
    ensures DispatchEvents(order + [r], count) == DispatchEvents(order, count) + RequestEvents(r, count - |order| - 1)
    decreases |order|
  {
    if order != [] {
      assert (order + [r])[1..] == order[1..] + [r];
      DispatchEventsSnoc(order[1..], r, count - 1);
    } else {
      assert order + [r] == [r];
    }
  }

  /**
   * The i-th request polled owns events 3i to 3i + 2: its recipient comes
   * first, then its dispatch, then its completion, which leaves the counter
   * at `count - i - 1`; so, in this model (see Left out, Handle), each
   * request completes before the next is dispatched.
   */
  lemma {:induction false} DispatchEventsAt(order: seq<DataRequest>, count: int, i: nat)
    requires i < |order|
    ensures DispatchEvents(order, count)[3 * i] == RecipientAdded(order[i])
    ensures DispatchEvents(order, count)[3 * i + 1] == Dispatched(order[i], order[i].outcome)
    ensures DispatchEvents(order, count)[3 * i + 2] == Completed(order[i], count - i - 1)
    decreases i
  {
    if i > 0 {
      DispatchEventsAt(order[1..], count - 1, i - 1);
      assert order[1..][i - 1] == order[i];
    }
  }

  /** The terminal request is handled exactly once, as the very last event, when it is set; never otherwise. */
  lemma TerminalLastAndOnce(order: seq<DataRequest>, count: int, last: Option<ShutdownRequest>)
    ensures var t := ChainTrace(order, count, last);
      && (last.Some? ==> t[|t| - 1] == LastHandled(last.value))
      && forall j :: 0 <= j < |t| ==> (t[j].LastHandled? <==> last.Some? && j == |t| - 1)
  {
    var t := ChainTrace(order, count, last);
    forall j | 0 <= j < |DispatchEvents(order, count)|
      ensures !DispatchEvents(order, count)[j].LastHandled?
    {
      DispatchEventsAt(order, count, j / 3);
    }
  }

  lemma {:induction false} DispatchedInAppend(t1: seq<Event>, t2: seq<Event>)
    ensures DispatchedIn(t1 + t2) == DispatchedIn(t1) + DispatchedIn(t2)
    decreases |t1|
  {
    if t1 != [] {
      assert (t1 + t2)[0] == t1[0] && (t1 + t2)[1..] == t1[1..] + t2;
      DispatchedInAppend(t1[1..], t2);
    } else {
      assert t1 + t2 == t2;
    }
  }

  lemma DispatchedInRequest(r: DataRequest, after: int)
    ensures DispatchedIn(RequestEvents(r, after)) == [r]
  {
    var t := RequestEvents(r, after);
    assert t[1..][1..][1..] == [];
    assert DispatchedIn(t[1..][1..]) == [];
  }

  lemma {:induction false} DispatchedInEvents(order: seq<DataRequest>, count: int)
    ensures DispatchedIn(DispatchEvents(order, count)) == order
    decreases |order|
  {
    if order != [] {
      DispatchedInAppend(RequestEvents(order[0], count - 1), DispatchEvents(order[1..], count - 1));
      DispatchedInRequest(order[0], count - 1);
      DispatchedInEvents(order[1..], count - 1);
      assert order == [order[0]] + order[1..];
    }
  }

  /** The dispatches of a chain are exactly the polled requests, once each, in polling order. */
  lemma DispatchedInChain(order: seq<DataRequest>, count: int, last: Option<ShutdownRequest>)
    ensures DispatchedIn(ChainTrace(order, count, last)) == order
  {
    var tail := if last.Some? then [LastHandled(last.value)] else [];
    assert DispatchedIn(tail) == [] by {
      if last.Some? { assert tail[1..] == []; }
    }
    DispatchedInAppend(DispatchEvents(order, count), tail);
    DispatchedInEvents(order, count);
    assert order + [] == order;
  }

  /**
   * The poll order is determined up to requests of equal internalID: two
   * sorted drains of the same queue are the same sequence when the IDs are
   * distinct.
   */
  lemma {:induction false} SortedDrainUnique(a: seq<DataRequest>, b: seq<DataRequest>)
    requires SortedById(a) && SortedById(b) && multiset(a) == multiset(b)
    requires forall i, j :: 0 <= i < j < |a| ==> a[i].internalID != a[j].internalID
    ensures a == b
    decreases |a|
  {
    if a != [] {
      assert |b| == |a| by { assert |multiset(a)| == |multiset(b)|; }
      SortedHeadsAgree(a, b);
      MultisetTail(a, b);
      SortedDrainUnique(a[1..], b[1..]);
      assert a == [a[0]] + a[1..] && b == [b[0]] + b[1..];
    }
  }

  /** Two sorted drains of one queue with distinct IDs start with the same request. */
  lemma SortedHeadsAgree(a: seq<DataRequest>, b: seq<DataRequest>)
    requires SortedById(a) && SortedById(b) && multiset(a) == multiset(b) && a != [] && b != []
    requires forall i, j :: 0 <= i < j < |a| ==> a[i].internalID != a[j].internalID
    ensures a[0] == b[0]
  {
    assert a[0] in multiset(b) && b[0] in multiset(a);
    var i :| 0 <= i < |b| && b[i] == a[0];
    var j :| 0 <= j < |a| && a[j] == b[0];
    assert a[0].internalID == b[0].internalID;
    assert j == 0;
  }

  /** Removing equal heads from two sequences of the same elements leaves the same elements. */
  lemma MultisetTail(a: seq<DataRequest>, b: seq<DataRequest>)
    requires a != [] && b != [] && a[0] == b[0] && multiset(a) == multiset(b)
    ensures multiset(a[1..]) == multiset(b[1..])
  {
    assert a == [a[0]] + a[1..] && b == [b[0]] + b[1..];
    assert multiset(a) == multiset{a[0]} + multiset(a[1..]);
    assert multiset(b) == multiset{b[0]} + multiset(b[1..]);
    forall x ensures multiset(a[1..])[x] == multiset(b[1..])[x] {
      assert multiset(a)[x] == multiset{a[0]}[x] + multiset(a[1..])[x];
      assert multiset(b)[x] == multiset{b[0]}[x] + multiset(b[1..])[x];
    }
  }
}
