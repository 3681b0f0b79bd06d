/** internal/eventbus: publish and subscribe, with unsubscribe closures that keep the index they
    had at subscription. */
module EventBus {
  import opened Text

  type Topic = string
  type Handler = int

  datatype Event = Event(topic: Topic, cluster: string, time: Option<int>)

  /** A registered handler, with the number of the Subscribe call that registered it. */
  datatype Entry = Entry(ticket: nat, handler: Handler)

  /** What an unsubscribe closure holds: the topic and the captured index. `ahead` records, for
      the statements below, which subscriptions stood before it at that moment. */
  datatype Slot = Slot(topic: Topic, idx: nat, ahead: seq<nat>)

  /** The bus, and all closures handed out so far. */
  datatype State = State(handlers: map<Topic, seq<Entry>>, slots: seq<Slot>)

  const EMPTY: State := State(map[], [])

  // ---- operations on values ----

  function Live(s: State, topic: Topic): seq<Entry> {
    if topic in s.handlers then s.handlers[topic] else []
  }

  function TicketsOf(es: seq<Entry>): (ts: seq<nat>)
    ensures |ts| == |es| && forall i :: 0 <= i < |es| ==> ts[i] == es[i].ticket
  {
    seq(|es|, i requires 0 <= i < |es| => es[i].ticket)
  }

  function Subscribed(s: State, topic: Topic, h: Handler): State {
    var es := Live(s, topic);
    State(s.handlers[topic := es + [Entry(|s.slots|, h)]], s.slots + [Slot(topic, |es|, TicketsOf(es))])
  }

  function RemoveAt<T>(xs: seq<T>, i: nat): seq<T> {
    if i < |xs| then xs[..i] + xs[i + 1..] else xs
  }

  function Unsubscribed(s: State, t: nat): State
    requires t < |s.slots|
  {
    var slot := s.slots[t];
    var es := Live(s, slot.topic);
    if slot.idx >= |es| then s else s.(handlers := s.handlers[slot.topic := RemoveAt(es, slot.idx)])
  }

  datatype Op = Subscribe(topic: Topic, handler: Handler) | Unsubscribe(ticket: nat) | Reset

  /** Calling a closure that was never handed out does nothing. */
  function After(s: State, op: Op): State {
    match op
    case Subscribe(topic, h) => Subscribed(s, topic, h)
    case Unsubscribe(t) => if t < |s.slots| then Unsubscribed(s, t) else s
    case Reset => s.(handlers := map[])
  }

  function Run(s: State, ops: seq<Op>): State
    decreases ops
  {
    if ops == [] then s else Run(After(s, ops[0]), ops[1..])
  }

  // ---- what every run keeps ----

  ghost predicate Increasing(ts: seq<nat>) {
    forall i, j :: 0 <= i < j < |ts| ==> ts[i] < ts[j]
  }

  /** The subscriptions of a topic stand in the order of their tickets. */
  ghost predicate TopicOk(s: State, topic: Topic) {
    var ts := TicketsOf(Live(s, topic));
    && Increasing(ts)
    && forall i :: 0 <= i < |ts| ==> ts[i] < |s.slots| && s.slots[ts[i]].topic == topic
  }

  /** A closure's index counts what stood ahead, and whatever stands ahead of it today stood
      there already. */
  ghost predicate SlotOk(s: State, t: nat)
    requires t < |s.slots|
  {
    var slot := s.slots[t];
    && slot.idx == |slot.ahead| && Increasing(slot.ahead)
    && (forall i :: 0 <= i < |slot.ahead| ==> slot.ahead[i] < t)
    && (forall e :: e in Live(s, slot.topic) && e.ticket < t ==> e.ticket in slot.ahead)
  }

  ghost predicate Valid(s: State) {
    (forall topic :: TopicOk(s, topic)) && (forall t: nat :: t < |s.slots| ==> SlotOk(s, t))
  }

  lemma SubscribeKeepsValid(s: State, topic: Topic, h: Handler)
    requires Valid(s)
    ensures Valid(Subscribed(s, topic, h))
  {
    var s' := Subscribed(s, topic, h);
    var es := Live(s, topic);
    forall x ensures TopicOk(s', x) {
      assert TopicOk(s, x);
    }
    forall t: nat | t < |s'.slots| ensures SlotOk(s', t) {
      if t < |s.slots| {
        assert SlotOk(s, t);
      } else {
        assert TopicOk(s, topic);
        forall e | e in Live(s', topic) && e.ticket < t ensures e.ticket in TicketsOf(es) {
          assert e in es;
          var i :| 0 <= i < |es| && es[i] == e;
          assert TicketsOf(es)[i] == e.ticket;
        }
      }
    }
  }

  /** Removing one entry removes one ticket and reorders nothing. */
  lemma RemovedTickets(es: seq<Entry>, i: nat)
    requires Increasing(TicketsOf(es))
    ensures Increasing(TicketsOf(RemoveAt(es, i)))
    ensures forall e :: e in RemoveAt(es, i) ==> e in es
  {
    var rest := RemoveAt(es, i);
    if i < |es| {
      forall j, k | 0 <= j < k < |rest| ensures TicketsOf(rest)[j] < TicketsOf(rest)[k] {
        assert rest[j] == es[if j < i then j else j + 1] && rest[k] == es[if k < i then k else k + 1];
        assert TicketsOf(es)[if j < i then j else j + 1] < TicketsOf(es)[if k < i then k else k + 1];
      }
    }
  }

  lemma UnsubscribeKeepsValid(s: State, t: nat)
    requires Valid(s) && t < |s.slots|
    ensures Valid(Unsubscribed(s, t))
  {
    var s' := Unsubscribed(s, t);
    var topic := s.slots[t].topic;
    var es, es' := Live(s, topic), Live(s', topic);
    assert TopicOk(s, topic);
    RemovedTickets(es, s.slots[t].idx);
    assert forall e :: e in es' ==> e in es;
    forall x ensures TopicOk(s', x) {
      assert TopicOk(s, x);
      if x == topic {
        forall e | e in es' ensures e.ticket < |s.slots| && s.slots[e.ticket].topic == topic {
          var i :| 0 <= i < |es| && es[i] == e;
          assert TicketsOf(es)[i] == e.ticket;
        }
      }
    }
    forall u: nat | u < |s'.slots| ensures SlotOk(s', u) {
      assert SlotOk(s, u);
    }
  }

  lemma AfterKeepsValid(s: State, op: Op)
    requires Valid(s)
    ensures Valid(After(s, op))
  {
    match op
    case Subscribe(topic, h) => SubscribeKeepsValid(s, topic, h);
    case Unsubscribe(t) => if t < |s.slots| { UnsubscribeKeepsValid(s, t); }
    case Reset =>
      forall t: nat | t < |s.slots| ensures SlotOk(After(s, op), t) {
        assert SlotOk(s, t);
      }
  }

  /** Reset leaves no handler, whatever the topic, and takes no closure back. */
  lemma ResetRemovesAll(s: State, topic: Topic)
    ensures Live(After(s, Reset), topic) == [] && After(s, Reset).slots == s.slots
  {
  }

  lemma {:induction false} RunKeepsValid(s: State, ops: seq<Op>)
    requires Valid(s)
    ensures Valid(Run(s, ops))
    decreases ops
  {
    if ops != [] {
      AfterKeepsValid(s, ops[0]);
      RunKeepsValid(After(s, ops[0]), ops[1..]);
    }
  }

  // ---- what an unsubscribe closure removes ----

  /** The entries without the subscription `t`. */
  function Without(es: seq<Entry>, t: nat): seq<Entry> {
    if es == [] then []
    else if es[0].ticket == t then Without(es[1..], t)
    else [es[0]] + Without(es[1..], t)
  }

  /** The subscription `t` is live and so is everything that stood ahead of it; or it is gone and
      its captured index is out of range. */
  predicate ExactAmong(ts: seq<nat>, ahead: seq<nat>, t: nat) {
    if t in ts then forall i :: 0 <= i < |ahead| ==> ahead[i] in ts else |ahead| >= |ts|
  }

  predicate Exact(s: State, t: nat)
    requires t < |s.slots|
  {
    ExactAmong(TicketsOf(Live(s, s.slots[t].topic)), s.slots[t].ahead, t)
  }

  ghost function Elements(ts: seq<nat>): set<nat> {
    set x | x in ts
  }

  lemma {:induction false} SizeOfIncreasing(ts: seq<nat>)
    requires Increasing(ts)
    ensures |Elements(ts)| == |ts|
  {
    if ts != [] {
      var front, last := ts[..|ts| - 1], ts[|ts| - 1];
      SizeOfIncreasing(front);
      assert last !in front;
      assert Elements(ts) == Elements(front) + {last} by {
        assert ts == front + [last];
      }
    }
  }

  lemma {:induction false} SizeOfSubset(a: set<nat>, b: set<nat>)
    requires a <= b
    ensures |a| <= |b| && (|a| == |b| <==> a == b)
  {
    if a != {} {
      var x :| x in a;
      SizeOfSubset(a - {x}, b - {x});
      assert a == b <==> a - {x} == b - {x};
    }
  }

  /** Of two increasing lists, one inside the other, the lengths say whether they hold the same. */
  lemma LengthsTell(a: seq<nat>, b: seq<nat>)
    requires Increasing(a) && Increasing(b)
    requires forall i :: 0 <= i < |a| ==> a[i] in b
    ensures |a| <= |b|
    ensures |a| == |b| <==> forall i :: 0 <= i < |b| ==> b[i] in a
  {
    SizeOfIncreasing(a);
    SizeOfIncreasing(b);
    assert Elements(a) <= Elements(b);
    SizeOfSubset(Elements(a), Elements(b));
    if forall i :: 0 <= i < |b| ==> b[i] in a {
      assert Elements(b) <= Elements(a);
    } else {
      var i :| 0 <= i < |b| && b[i] !in a;
      assert b[i] in Elements(b) && b[i] !in Elements(a);
    }
  }

  lemma RemoveBehindFirst<T>(xs: seq<T>, p: nat)
    requires 0 < p < |xs|
    ensures RemoveAt(xs, p) == [xs[0]] + RemoveAt(xs[1..], p - 1)
  {
  }

  lemma RemoveBeforeLast<T>(xs: seq<T>, i: nat)
    requires xs != []
    ensures var n := |xs| - 1;
      RemoveAt(xs, i) == if i == n then xs[..n] else RemoveAt(xs[..n], i) + [xs[n]]
  {
  }

  lemma {:induction false} WithoutFirst(es: seq<Entry>, p: nat, t: nat)
    requires p < |es| && es[p].ticket == t
    requires forall i :: 0 <= i < |es| && i != p ==> es[i].ticket != t
    ensures Without(es, t) == RemoveAt(es, p)
  {
    if p == 0 {
      WithoutAbsent(es[1..], t);
    } else {
      WithoutFirst(es[1..], p - 1, t);
      RemoveBehindFirst(es, p);
    }
  }

  lemma WithoutIsRemoveAt(es: seq<Entry>, p: nat)
    requires Increasing(TicketsOf(es)) && p < |es|
    ensures Without(es, es[p].ticket) == RemoveAt(es, p)
  {
    var ts := TicketsOf(es);
    forall i | 0 <= i < |es| && i != p ensures es[i].ticket != es[p].ticket {
      assert if i < p then ts[i] < ts[p] else ts[p] < ts[i];
    }
    WithoutFirst(es, p, es[p].ticket);
  }

  lemma {:induction false} WithoutAbsent(es: seq<Entry>, t: nat)
    requires forall i :: 0 <= i < |es| ==> es[i].ticket != t
    ensures Without(es, t) == es
  {
    if es != [] {
      WithoutAbsent(es[1..], t);
    }
  }

  lemma RemovalsDiffer(es: seq<Entry>, i: nat, p: nat)
    requires Increasing(TicketsOf(es)) && p < |es| && i != p
    ensures RemoveAt(es, i) != RemoveAt(es, p)
  {
    var ts := TicketsOf(es);
    if i < p {
      assert RemoveAt(es, i)[i] == es[i + 1] && RemoveAt(es, p)[i] == es[i];
      assert ts[i] < ts[i + 1];
    } else if i < |es| {
      assert RemoveAt(es, i)[p] == es[p] && RemoveAt(es, p)[p] == es[p + 1];
      assert ts[p] < ts[p + 1];
    }
  }

  /** What the bus keeps, about one subscription `t`: the live tickets of its topic and those that
      stood ahead of it. */
  ghost predicate Aligned(ts: seq<nat>, ahead: seq<nat>, t: nat) {
    && Increasing(ts) && Increasing(ahead)
    && (forall i :: 0 <= i < |ts| && ts[i] < t ==> ts[i] in ahead)
    && (forall i :: 0 <= i < |ahead| ==> ahead[i] < t)
  }

  lemma ValidIsAligned(s: State, t: nat)
    requires Valid(s) && t < |s.slots|
    ensures var slot := s.slots[t];
      slot.idx == |slot.ahead| && Aligned(TicketsOf(Live(s, slot.topic)), slot.ahead, t)
  {
    var slot := s.slots[t];
    assert TopicOk(s, slot.topic) && SlotOk(s, t);
    var es := Live(s, slot.topic);
    forall i | 0 <= i < |es| && TicketsOf(es)[i] < t ensures TicketsOf(es)[i] in slot.ahead {
      assert es[i] in es;
    }
  }

  lemma FrontIsAhead(ts: seq<nat>, ahead: seq<nat>, t: nat, n: nat)
    requires Aligned(ts, ahead, t) && n <= |ts| && (n > 0 ==> ts[n - 1] < t)
    ensures n <= |ahead|
    ensures n == |ahead| <==> forall i :: 0 <= i < |ahead| ==> ahead[i] in ts[..n]
  {
    var front := ts[..n];
    forall i | 0 <= i < |front| ensures front[i] in ahead {
      assert front[i] == ts[i] <= ts[n - 1];
    }
    LengthsTell(front, ahead);
  }

  /** A live subscription stands at its captured index exactly when everything that stood ahead
      of it still does. */
  lemma IndexIsPosition(ts: seq<nat>, ahead: seq<nat>, t: nat, p: nat)
    requires Aligned(ts, ahead, t) && p < |ts| && ts[p] == t
    ensures |ahead| == p <==> forall i :: 0 <= i < |ahead| ==> ahead[i] in ts
  {
    FrontIsAhead(ts, ahead, t, p);
    forall i | 0 <= i < |ahead| && ahead[i] in ts ensures ahead[i] in ts[..p] {
      var j :| 0 <= j < |ts| && ts[j] == ahead[i];
      assert ts[..p][j] == ts[j];
    }
  }

  /** Whatever stands at the captured index subscribed no earlier than the closure's owner. */
  lemma VictimIsLater(ts: seq<nat>, ahead: seq<nat>, t: nat)
    requires Aligned(ts, ahead, t) && |ahead| < |ts|
    ensures t <= ts[|ahead|]
  {
    if ts[|ahead|] < t {
      FrontIsAhead(ts, ahead, t, |ahead| + 1);
    }
  }

  /** Over every run: an unsubscribe closure takes away its own handler and nothing else exactly
      when it is `Exact`. Otherwise it leaves its handler in place or removes a later one. Other
      topics never change. */
  lemma UnsubscribeRemovesOwn(ops: seq<Op>, t: nat)
    requires t < |Run(EMPTY, ops).slots|
    ensures var s := Run(EMPTY, ops);
      var slot := s.slots[t];
      var es := Live(s, slot.topic);
      var s' := After(s, Unsubscribe(t));
      && (Live(s', slot.topic) == Without(es, t) <==> Exact(s, t))
      && (!Exact(s, t) && slot.idx < |es| ==> es[slot.idx].ticket > t)
      && s'.slots == s.slots
      && forall topic :: topic != slot.topic ==> Live(s', topic) == Live(s, topic)
  {
    var s := Run(EMPTY, ops);
    RunKeepsValid(EMPTY, ops);
    ValidIsAligned(s, t);
    var slot := s.slots[t];
    RemovesOwn(Live(s, slot.topic), slot.ahead, t);
    assert Live(After(s, Unsubscribe(t)), slot.topic) == RemoveAt(Live(s, slot.topic), slot.idx);
  }

  lemma RemovesOwn(es: seq<Entry>, ahead: seq<nat>, t: nat)
    requires Aligned(TicketsOf(es), ahead, t)
    ensures RemoveAt(es, |ahead|) == Without(es, t) <==> ExactAmong(TicketsOf(es), ahead, t)
    ensures |ahead| < |es| && !ExactAmong(TicketsOf(es), ahead, t) ==> es[|ahead|].ticket > t
  {
    var ts := TicketsOf(es);
    if t in ts {
      var p :| 0 <= p < |es| && ts[p] == t;
      LiveRemovesOwn(es, ahead, t, p);
    } else {
      assert forall i :: 0 <= i < |es| ==> ts[i] != t;
      WithoutAbsent(es, t);
      if |ahead| < |es| {
        VictimIsLater(ts, ahead, t);
      }
    }
  }

  lemma LiveRemovesOwn(es: seq<Entry>, ahead: seq<nat>, t: nat, p: nat)
    requires Aligned(TicketsOf(es), ahead, t) && p < |es| && es[p].ticket == t
    ensures RemoveAt(es, |ahead|) == Without(es, t) <==> |ahead| == p
    ensures |ahead| == p <==> ExactAmong(TicketsOf(es), ahead, t)
    ensures |ahead| < |es| && |ahead| != p ==> es[|ahead|].ticket > t
  {
    var ts := TicketsOf(es);
    assert ts[p] == t;
    WithoutIsRemoveAt(es, p);
    IndexIsPosition(ts, ahead, t, p);
    if |ahead| != p {
      RemovalsDiffer(es, |ahead|, p);
      if |ahead| < |es| {
        VictimIsLater(ts, ahead, t);
        assert ts[|ahead|] != ts[p];
      }
    }
  }

  /** Subscribe, subscribe, drop the first: the second closure then does nothing. With a third
      subscriber, it removes the third. */
  lemma ClosuresGoStale(topic: Topic, a: Handler, b: Handler, c: Handler)
    ensures var s := Run(EMPTY, [Subscribe(topic, a), Subscribe(topic, b), Unsubscribe(0)]);
      After(s, Unsubscribe(1)) == s && Live(s, topic) == [Entry(1, b)]
    ensures var s := Run(EMPTY, [Subscribe(topic, a), Subscribe(topic, b), Subscribe(topic, c), Unsubscribe(0)]);
      Live(s, topic) == [Entry(1, b), Entry(2, c)] && Live(After(s, Unsubscribe(1)), topic) == [Entry(1, b)]
  {
    var s1 := Subscribed(EMPTY, topic, a);
    var s2 := Subscribed(s1, topic, b);
    var s3 := Subscribed(s2, topic, c);
    var ab, abc := [Subscribe(topic, a), Subscribe(topic, b), Unsubscribe(0)],
      [Subscribe(topic, a), Subscribe(topic, b), Subscribe(topic, c), Unsubscribe(0)];
    assert Live(s2, topic) == [Entry(0, a), Entry(1, b)];
    assert Live(s3, topic) == [Entry(0, a), Entry(1, b), Entry(2, c)];
    assert ab[1..] == [Subscribe(topic, b), Unsubscribe(0)] && ab[1..][1..] == [Unsubscribe(0)];
    assert abc[1..] == [Subscribe(topic, b), Subscribe(topic, c), Unsubscribe(0)];
    assert abc[1..][1..] == [Subscribe(topic, c), Unsubscribe(0)] && abc[1..][1..][1..] == [Unsubscribe(0)];
    assert Run(EMPTY, ab) == Run(s1, ab[1..]) == Run(s2, [Unsubscribe(0)]) == Unsubscribed(s2, 0);
    assert Run(EMPTY, abc) == Run(s1, abc[1..]) == Run(s2, abc[1..][1..]) == Run(s3, [Unsubscribe(0)]) == Unsubscribed(s3, 0);
  }

  // ---- the bus itself ----

  /** The handlers that are not nil, in order. */
  function NonNil(hs: seq<Option<Entry>>): seq<Entry> {
    if hs == [] then [] else NonNil(hs[..|hs| - 1]) + (match hs[|hs| - 1] case None => [] case Some(e) => [e])
  }

  lemma {:induction false} NonNilOfMarked(es: seq<Entry>, hs: seq<Option<Entry>>, i: nat)
    requires |hs| == |es|
    requires forall k :: 0 <= k < |es| ==> hs[k] == if k == i then None else Some(es[k])
    ensures NonNil(hs) == RemoveAt(es, i)
  {
    if es != [] {
      var n := |es| - 1;
      NonNilOfMarked(es[..n], hs[..n], i);
      RemoveBeforeLast(es, i);
    }
  }

  /** Moves the handlers that are not nil to the front of the array they stand in. */
  method Compact(hs: array<Option<Entry>>) returns (n: nat)
    modifies hs
    ensures n <= hs.Length
    ensures forall k :: 0 <= k < n ==> hs[k].Some?
    ensures NonNil(old(hs[..])) == seq(n, k requires 0 <= k < n && hs[k].Some? reads hs => hs[k].value)
  {
    n := 0;
    for i := 0 to hs.Length
      invariant n <= i
      invariant forall k :: i <= k < hs.Length ==> hs[k] == old(hs[k])
      invariant forall k :: 0 <= k < n ==> hs[k].Some?
      invariant |NonNil(old(hs[..i]))| == n
      invariant forall k :: 0 <= k < n ==> hs[k].value == NonNil(old(hs[..i]))[k]
    {
      assert old(hs[..i + 1])[..i] == old(hs[..i]);
      var h := hs[i];
      if h.Some? {
        hs[n] := h;
        n := n + 1;
      }
    }
    assert old(hs[..hs.Length]) == old(hs[..]);
  }

  datatype Delivery = Delivery(handler: Handler, event: Event)

  function Deliveries(es: seq<Entry>, e: Event): seq<Delivery> {
    if es == [] then [] else Deliveries(es[..|es| - 1], e) + [Delivery(es[|es| - 1].handler, e)]
  }

  /** One delivery for each entry, in order. */
  lemma {:induction false} DeliveriesInOrder(es: seq<Entry>, e: Event)
    ensures |Deliveries(es, e)| == |es|
    ensures forall i :: 0 <= i < |es| ==> Deliveries(es, e)[i] == Delivery(es[i].handler, e)
  {
    if es != [] {
      DeliveriesInOrder(es[..|es| - 1], e);
    }
  }

  /** What a handler does to the bus: a call that returns at once, or a Publish of its own, whose
      delivery `i` does `scripts[i]`; deliveries without a script do nothing. */
  datatype Act = Call(op: Op) | Again(event: Event, now: int, scripts: seq<Script>)

  datatype Script = Script(acts: seq<Act>)

  function Acted(s: State, acts: seq<Act>): State
    decreases acts
  {
    if acts == [] then s else ActedOnce(Acted(s, acts[..|acts| - 1]), acts[|acts| - 1])
  }

  function ActedOnce(s: State, a: Act): State
    decreases a
  {
    match a
    case Call(op) => After(s, op)
    case Again(e, _, scripts) => Delivered(s, scripts, |Live(s, e.topic)|)
  }

  /** The bus after `n` deliveries. */
  function Delivered(s: State, scripts: seq<Script>, n: nat): State
    decreases scripts, n
  {
    if n == 0 then s
    else
      var before := Delivered(s, scripts, n - 1);
      if n <= |scripts| then Acted(before, scripts[n - 1].acts) else before
  }

  lemma {:induction false} RunSnoc(s: State, ops: seq<Op>, op: Op)
    ensures Run(s, ops + [op]) == After(Run(s, ops), op)
    decreases ops
  {
    if ops == [] {
      assert [op][1..] == [];
    } else {
      assert (ops + [op])[1..] == ops[1..] + [op];
      RunSnoc(After(s, ops[0]), ops[1..], op);
    }
  }

  lemma {:induction false} RunConcat(s: State, a: seq<Op>, b: seq<Op>)
    ensures Run(s, a + b) == Run(Run(s, a), b)
  {
    if b == [] {
      assert a + b == a;
    } else {
      RunConcat(s, a, b[..|b| - 1]);
      RunSnoc(s, a + b[..|b| - 1], b[|b| - 1]);
      RunSnoc(Run(s, a), b[..|b| - 1], b[|b| - 1]);
      assert a + b == a + b[..|b| - 1] + [b[|b| - 1]] && b == b[..|b| - 1] + [b[|b| - 1]];
    }
  }

  /** However deeply publishing nests, what happens to the bus is one run of plain calls, so all
      that holds over every run holds here. */
  lemma {:induction false} ActedIsRun(s: State, acts: seq<Act>) returns (ops: seq<Op>)
    ensures Acted(s, acts) == Run(s, ops)
    decreases acts
  {
    if acts == [] {
      ops := [];
    } else {
      var front := ActedIsRun(s, acts[..|acts| - 1]);
      var before := Acted(s, acts[..|acts| - 1]);
      var last;
      match acts[|acts| - 1] {
        case Call(op) =>
          last := [op];
          RunSnoc(before, [], op);
          assert [] + [op] == [op];
        case Again(e, _, scripts) =>
          last := DeliveredIsRun(before, scripts, |Live(before, e.topic)|);
      }
      ops := front + last;
      RunConcat(s, front, last);
    }
  }

  lemma {:induction false} DeliveredIsRun(s: State, scripts: seq<Script>, n: nat) returns (ops: seq<Op>)
    ensures Delivered(s, scripts, n) == Run(s, ops)
    decreases scripts, n
  {
    if n == 0 {
      ops := [];
    } else {
      ops := DeliveredIsRun(s, scripts, n - 1);
      if n <= |scripts| {
        var more := ActedIsRun(Delivered(s, scripts, n - 1), scripts[n - 1].acts);
        RunConcat(s, ops, more);
        ops := ops + more;
      }
    }
  }

  function Calls(ops: seq<Op>): (acts: seq<Act>)
    ensures |acts| == |ops| && forall i :: 0 <= i < |ops| ==> acts[i] == Call(ops[i])
  {
    seq(|ops|, i requires 0 <= i < |ops| => Call(ops[i]))
  }

  lemma {:induction false} CallsAreRun(s: State, ops: seq<Op>)
    ensures Acted(s, Calls(ops)) == Run(s, ops)
  {
    if ops != [] {
      var n := |ops| - 1;
      CallsAreRun(s, ops[..n]);
      assert Calls(ops)[..n] == Calls(ops[..n]);
      RunSnoc(s, ops[..n], ops[n]);
      assert ops == ops[..n] + [ops[n]];
    }
  }

  /** All calls of the first `n` deliveries, one after the other. */
  function InTurn(calls: seq<seq<Op>>, n: nat): seq<Op>
    requires n <= |calls|
  {
    if n == 0 then [] else InTurn(calls, n - 1) + calls[n - 1]
  }

  /** When handlers make plain calls, the bus ends up as if these had been made one after the other,
      delivery by delivery. */
  lemma {:induction false} DeliveredInTurn(s: State, calls: seq<seq<Op>>, scripts: seq<Script>, n: nat)
    requires n <= |calls| == |scripts| && forall i :: 0 <= i < |calls| ==> scripts[i] == Script(Calls(calls[i]))
    ensures Delivered(s, scripts, n) == Run(s, InTurn(calls, n))
  {
    if n > 0 {
      DeliveredInTurn(s, calls, scripts, n - 1);
      CallsAreRun(Delivered(s, scripts, n - 1), calls[n - 1]);
      RunConcat(s, InTurn(calls, n - 1), calls[n - 1]);
    }
  }

  /** `slots` lists the closures handed out; calling closure number t is `Unsubscribe(t)`. */
  class Bus {
    var handlers: map<Topic, seq<Entry>>
    var slots: seq<Slot>

    ghost function Model(): State reads this { State(handlers, slots) }

    constructor ()
      ensures Model() == EMPTY
    {
      handlers, slots := map[], [];
    }

    method Subscribe(topic: Topic, handler: Handler) returns (ticket: nat)
      modifies this
      ensures Model() == Subscribed(old(Model()), topic, handler) && ticket == |old(slots)|
    {
      ticket := |slots|;
      var before := if topic in handlers then handlers[topic] else [];
      handlers := handlers[topic := before + [Entry(ticket, handler)]];
      var idx := |handlers[topic]| - 1;
      slots := slots + [Slot(topic, idx, TicketsOf(before))];
    }

    method Unsubscribe(ticket: nat)
      requires ticket < |slots|
      modifies this
      ensures Model() == Unsubscribed(old(Model()), ticket)
    {
      var slot := slots[ticket];
      var es := if slot.topic in handlers then handlers[slot.topic] else [];
      if slot.idx >= |es| {
        return;
      }
      var hs := new Option<Entry>[|es|](i requires 0 <= i < |es| => Some(es[i]));
      hs[slot.idx] := None;
      NonNilOfMarked(es, hs[..], slot.idx);
      var n := Compact(hs);
      handlers := handlers[slot.topic := seq(n, k requires 0 <= k < n && hs[k].Some? reads hs => hs[k].value)];
    }

    method Reset()
      modifies this
      ensures Model() == After(old(Model()), Op.Reset)
    {
      handlers := map[];
    }

    method SubscriberCount(topic: Topic) returns (n: nat)
      ensures n == |Live(Model(), topic)|
    {
      n := if topic in handlers then |handlers[topic]| else 0;
    }

    /** A handler's own calls on the bus. */
    method Handle(script: seq<Act>)
      modifies this
      ensures Model() == Acted(old(Model()), script)
      decreases script
    {
      for i := 0 to |script|
        invariant Model() == Acted(old(Model()), script[..i])
      {
        assert script[..i + 1][..i] == script[..i];
        match script[i]
        case Call(Subscribe(topic, h)) => var _ := Subscribe(topic, h);
        case Call(Unsubscribe(t)) => if t < |slots| { Unsubscribe(t); }
        case Call(Reset) => Reset();
        case Again(e, now, scripts) => var _ := Publish(e, now, scripts);
      }
      assert script[..|script|] == script;
    }

    /** Delivers to the handlers registered when Publish is called, in order, whatever those
        handlers do to the bus on the way, publishing included. */
    method Publish(e: Event, now: int, scripts: seq<Script>) returns (log: seq<Delivery>)
      modifies this
      ensures log == Deliveries(Live(old(Model()), e.topic), if e.time.None? then e.(time := Some(now)) else e)
      ensures Model() == Delivered(old(Model()), scripts, |Live(old(Model()), e.topic)|)
      decreases scripts
    {
      var event := if e.time.None? then e.(time := Some(now)) else e;
      var es := if event.topic in handlers then handlers[event.topic] else [];
      log := [];
      for i := 0 to |es|
        invariant log == Deliveries(es[..i], event)
        invariant Model() == Delivered(old(Model()), scripts, i)
      {
        assert es[..i + 1][..i] == es[..i];
        if i < |scripts| {
          Handle(scripts[i].acts);
        }
        log := log + [Delivery(es[i].handler, event)];
      }
      assert es[..|es|] == es;
    }
  }
}
