/** The event bus: who hears an event, in which order, and what handlers may do meanwhile. */
module Events {
  import opened Basics

  /** A handler is known by its identity. */
  type Handler = nat

  type Table = map<Name, seq<Handler>>

  datatype Op = Subscribe(event: Name, handler: Option<Handler>) | Unsubscribe(event: Name, handler: Option<Handler>)

  function Hearing(t: Table, event: Name): seq<Handler> {
    if event in t then t[event] else []
  }

  /** None where the call raises. */
  function Subscribed(t: Table, event: Name, handler: Option<Handler>): Option<Table> {
    if event.text == "" || handler.None? then None
    else if handler.value in Hearing(t, event) then Some(t)
    else Some(t[event := Hearing(t, event) + [handler.value]])
  }

  function Unsubscribed(t: Table, event: Name, handler: Option<Handler>): Table {
    if event !in t then t
    else
      var left := if handler.Some? then RemoveFirst(t[event], handler.value) else t[event];
      if left == [] then t - {event} else t[event := left]
  }

  function Next(t: Table, op: Op): Table {
    match op
    case Subscribe(event, handler) => Subscribed(t, event, handler).GetOr(t)
    case Unsubscribe(event, handler) => Unsubscribed(t, event, handler)
  }

  function Run(t: Table, ops: seq<Op>): Table
    decreases |ops|
  {
    if ops == [] then t else Run(Next(t, ops[0]), ops[1..])
  }

  /** Nobody hears an event twice, no event has an empty list, and every name is a text. */
  ghost predicate Valid(t: Table) {
    forall e :: e in t ==> e.text != "" && t[e] != [] && Distinct(t[e])
  }

  /** A call changes who hears only for its own event and handler. */
  lemma NextIs(t: Table, op: Op, e: Name, h: Handler)
    requires Valid(t)
    ensures Valid(Next(t, op))
    ensures h in Hearing(Next(t, op), e) <==>
            if op == Subscribe(e, Some(h)) && e.text != "" then true
            else if op == Unsubscribe(e, Some(h)) then false
            else h in Hearing(t, e)
  {
    if op.Unsubscribe? && op.event in t && op.handler.Some? {
      RemoveFirstIsWithout(t[op.event], op.handler.value);
      WithoutExactly(t[op.event], op.handler.value);
    }
  }

  /** The last call about this event and handler: true for subscribe, false for unsubscribe. */
  function LastWord(ops: seq<Op>, e: Name, h: Handler): Option<bool> {
    if ops == [] then None
    else
      var last := ops[|ops| - 1];
      if last == Subscribe(e, Some(h)) && e.text != "" then Some(true)
      else if last == Unsubscribe(e, Some(h)) then Some(false)
      else LastWord(ops[..|ops| - 1], e, h)
  }

  /** After any run of calls a handler hears an event, once, exactly if its last call about it was a subscription. */
  lemma {:induction false} RunHears(t: Table, ops: seq<Op>, e: Name, h: Handler)
    requires Valid(t)
    ensures Valid(Run(t, ops))
    ensures h in Hearing(Run(t, ops), e) <==> LastWord(ops, e, h).GetOr(h in Hearing(t, e))
    decreases |ops|
  {
    if ops != [] {
      var init, last := ops[..|ops| - 1], ops[|ops| - 1];
      RunHears(t, init, e, h);
      RunConcat(t, init, [last]);
      assert init + [last] == ops;
      NextIs(Run(t, init), last, e, h);
    }
  }

  lemma {:induction false} RunConcat(t: Table, a: seq<Op>, b: seq<Op>)
    ensures Run(t, a + b) == Run(Run(t, a), b)
    decreases |a|
  {
    if a == [] {
      assert a + b == b;
    } else {
      assert (a + b)[0] == a[0] && (a + b)[1..] == a[1..] + b;
      RunConcat(Next(t, a[0]), a[1..], b);
    }
  }

  /** Who hears in which order: a newcomer comes last, a second subscription changes nothing, one that
      leaves leaves the others in order, and other events are not concerned. */
  lemma OrderIs(t: Table, e: Name, h: Handler, before: seq<Handler>, after: seq<Handler>)
    requires Valid(t) && e.text != ""
    ensures h !in Hearing(t, e) ==> Hearing(Next(t, Subscribe(e, Some(h))), e) == Hearing(t, e) + [h]
    ensures h in Hearing(t, e) ==> Next(t, Subscribe(e, Some(h))) == t
    ensures Hearing(t, e) == before + [h] + after ==> Hearing(Next(t, Unsubscribe(e, Some(h))), e) == before + after
    ensures forall f | f != e ::
              Hearing(Next(t, Subscribe(e, Some(h))), f) == Hearing(t, f) == Hearing(Next(t, Unsubscribe(e, Some(h))), f)
  {
    if Hearing(t, e) == before + [h] + after {
      DistinctAround(before, h, after);
      RemoveFirstIsWithout(before + [h] + after, h);
      WithoutMiddle(before, h, after);
    }
  }

  ghost predicate Before(g: Handler, h: Handler, hearing: seq<Handler>) {
    exists i, j :: 0 <= i < j < |hearing| && hearing[i] == g && hearing[j] == h
  }

  /** Of two handlers that keep hearing an event, the one that subscribed first is called first: no
      call about other handlers, and no repeated subscription, changes their order. */
  lemma {:induction false} OrderKept(t: Table, ops: seq<Op>, e: Name, g: Handler, h: Handler)
    requires Valid(t) && Before(g, h, Hearing(t, e))
    requires Unsubscribe(e, Some(g)) !in ops && Unsubscribe(e, Some(h)) !in ops
    ensures Before(g, h, Hearing(Run(t, ops), e))
    decreases |ops|
  {
    if ops != [] {
      assert ops[0] in ops && forall op | op in ops[1..] :: op in ops;
      NextIs(t, ops[0], e, g);
      NextKeepsOrder(t, ops[0], e, g, h);
      OrderKept(Next(t, ops[0]), ops[1..], e, g, h);
    }
  }

  lemma NextKeepsOrder(t: Table, op: Op, e: Name, g: Handler, h: Handler)
    requires Valid(t) && Before(g, h, Hearing(t, e)) && op != Unsubscribe(e, Some(g)) && op != Unsubscribe(e, Some(h))
    ensures Before(g, h, Hearing(Next(t, op), e))
  {
    var i, j :| 0 <= i < j < |Hearing(t, e)| && Hearing(t, e)[i] == g && Hearing(t, e)[j] == h;
    if op.Unsubscribe? && op.event == e && op.handler.Some? {
      RemoveFirstKeepsOrder(t[e], op.handler.value, g, h, i, j);
    } else {
      assert Hearing(t, e) <= Hearing(Next(t, op), e);
      assert Hearing(Next(t, op), e)[i] == g && Hearing(Next(t, op), e)[j] == h;
    }
  }

  lemma {:induction false} RemoveFirstKeepsOrder(s: seq<Handler>, x: Handler, g: Handler, h: Handler, i: nat, j: nat)
    requires i < j < |s| && s[i] == g && s[j] == h && x != g && x != h
    ensures Before(g, h, RemoveFirst(s, x))
  {
    var rest := RemoveFirst(s, x);
    if s[0] == x {
      assert rest[i - 1] == g && rest[j - 1] == h;
    } else if i == 0 {
      RemoveFirstKeepsOne(s[1..], x, h, j - 1);
      var k :| 0 <= k < |rest[1..]| && rest[1..][k] == h;
      assert rest[0] == g && rest[k + 1] == h;
    } else {
      RemoveFirstKeepsOrder(s[1..], x, g, h, i - 1, j - 1);
      var tail := RemoveFirst(s[1..], x);
      var a, b :| 0 <= a < b < |tail| && tail[a] == g && tail[b] == h;
      assert rest[a + 1] == g && rest[b + 1] == h;
    }
  }

  lemma {:induction false} RemoveFirstKeepsOne(s: seq<Handler>, x: Handler, h: Handler, j: nat)
    requires j < |s| && s[j] == h && x != h
    ensures h in RemoveFirst(s, x)
  {
    if s[0] != x && j > 0 {
      RemoveFirstKeepsOne(s[1..], x, h, j - 1);
    }
  }

  /** Subscribing and unsubscribing a newcomer leaves everything as it was. */
  lemma UnsubscribeUndoes(t: Table, e: Name, h: Handler)
    requires Valid(t) && e.text != "" && h !in Hearing(t, e)
    ensures Run(t, [Subscribe(e, Some(h)), Unsubscribe(e, Some(h))]) == t
  {
    var ops := [Subscribe(e, Some(h)), Unsubscribe(e, Some(h))];
    assert Distinct(Hearing(t, e) + [h]);
    RemoveFirstIsWithout(Hearing(t, e) + [h], h);
    WithoutLast(Hearing(t, e), h);
    assert Run(t, ops) == Run(Next(t, ops[0]), [ops[1]]) && Run(Next(t, ops[0]), [ops[1]]) == Next(Next(t, ops[0]), ops[1]);
    assert Next(Next(t, ops[0]), ops[1]) == t;
  }

  /** Everything the handlers do to the subscriptions while an event is delivered. */
  function Reactions(hearing: seq<Handler>, does: Handler -> seq<Op>): seq<Op> {
    if hearing == [] then [] else Reactions(hearing[..|hearing| - 1], does) + does(hearing[|hearing| - 1])
  }

  /** The reactions come in the order of the calls. */
  lemma {:induction false} ReactionsInOrder(before: seq<Handler>, h: Handler, after: seq<Handler>, does: Handler -> seq<Op>)
    ensures Reactions(before + [h] + after, does) == Reactions(before, does) + does(h) + Reactions(after, does)
    decreases |after|
  {
    var all := before + [h] + after;
    if after == [] {
      assert all == before + [h] && all[..|all| - 1] == before;
    } else {
      var init, last := after[..|after| - 1], after[|after| - 1];
      assert all[..|all| - 1] == before + [h] + init && all[|all| - 1] == last;
      ReactionsInOrder(before, h, init, does);
      Regroup(Reactions(before, does) + does(h), Reactions(init, does), does(last));
    }
  }

  lemma Regroup<T>(a: seq<T>, b: seq<T>, c: seq<T>)
    ensures a + b + c == a + (b + c)
  {}

  datatype Delivery = Delivery(event: Name, handler: Handler)

  class EventBus {
    var handlers: Table
    /** Every call of a handler, in order. */
    var calls: seq<Delivery>

    constructor ()
      ensures handlers == map[] && calls == []
    {
      handlers, calls := map[], [];
    }

    method SubscribeHandler(event: Name, handler: Option<Handler>) returns (raised: bool)
      modifies this`handlers
      ensures raised <==> event == Name("") || handler.None?
      ensures raised ==> handlers == old(handlers)
      ensures !raised ==> handlers == old(handlers)[event := if handler.value in Hearing(old(handlers), event)
                then old(handlers)[event] else Hearing(old(handlers), event) + [handler.value]]
      ensures handlers == Next(old(handlers), Subscribe(event, handler))
    {
      if event.text == "" || handler.None? {
        return true;
      }
      var list := if event in handlers then handlers[event] else [];
      if handler.value !in list {
        handlers := handlers[event := list + [handler.value]];
      }
      return false;
    }

    method UnsubscribeHandler(event: Name, handler: Option<Handler>)
      modifies this`handlers
      ensures handlers == Next(old(handlers), Unsubscribe(event, handler))
      ensures handlers - {event} == old(handlers) - {event}
      ensures event in handlers ==> event in old(handlers) && handlers[event] != []
      ensures event in old(handlers) ==>
                (Hearing(handlers, event) ==
                 if handler.Some? then RemoveFirst(old(handlers)[event], handler.value) else old(handlers)[event])
    {
      if event in handlers {
        if handler.Some? {
          handlers := handlers[event := RemoveFirst(handlers[event], handler.value)];
        }
        if handlers[event] == [] {
          handlers := handlers - {event};
        }
      }
    }

    method React(ops: seq<Op>)
      modifies this`handlers
      ensures handlers == Run(old(handlers), ops)
    {
      for k := 0 to |ops|
        invariant Run(handlers, ops[k..]) == old(Run(handlers, ops))
      {
        match ops[k] {
          case Subscribe(event, handler) => var _ := SubscribeHandler(event, handler);
          case Unsubscribe(event, handler) => UnsubscribeHandler(event, handler);
        }
      }
    }

    method Call(event: Name, handler: Handler, reaction: seq<Op>)
      modifies this
      ensures calls == old(calls) + [Delivery(event, handler)] && handlers == Run(old(handlers), reaction)
    {
      calls := calls + [Delivery(event, handler)];
      React(reaction);
    }

    /**
     * Every handler that hears the event when it is published is called once, in order of subscription,
     * whatever the handlers subscribe or unsubscribe meanwhile and whether they raise or not.
     */
    method Publish(event: Name, does: Handler -> seq<Op>)
      requires event.text != ""
      modifies this
      ensures calls == old(calls) + Deliveries(event, Hearing(old(handlers), event))
      ensures handlers == Run(old(handlers), Reactions(Hearing(old(handlers), event), does))
    {
      CallAll(event, if event in handlers then handlers[event] else [], does);
    }

    /** The loop over the copy of the list. */
    method CallAll(event: Name, copy: seq<Handler>, does: Handler -> seq<Op>)
      modifies this
      ensures calls == old(calls) + Deliveries(event, copy) && handlers == Run(old(handlers), Reactions(copy, does))
    {
      for k := 0 to |copy|
        invariant calls == old(calls) + Deliveries(event, copy[..k])
        invariant handlers == Run(old(handlers), Reactions(copy[..k], does))
      {
        ReactionsStep(old(handlers), copy, k, does);
        Call(event, copy[k], does(copy[k]));
        assert Deliveries(event, copy[..k + 1]) == Deliveries(event, copy[..k]) + [Delivery(event, copy[k])];
      }
      assert copy[..|copy|] == copy;
    }
  }

  function Deliveries(event: Name, hearing: seq<Handler>): (r: seq<Delivery>)
    ensures |r| == |hearing| && forall k | 0 <= k < |r| :: r[k] == Delivery(event, hearing[k])
  {
    seq(|hearing|, k requires 0 <= k < |hearing| => Delivery(event, hearing[k]))
  }

  lemma ReactionsStep(t: Table, hearing: seq<Handler>, k: nat, does: Handler -> seq<Op>)
    requires k < |hearing|
    ensures Run(t, Reactions(hearing[..k + 1], does)) == Run(Run(t, Reactions(hearing[..k], does)), does(hearing[k]))
  {
    assert hearing[..k + 1][..k] == hearing[..k];
    RunConcat(t, Reactions(hearing[..k], does), does(hearing[k]));
  }
}
