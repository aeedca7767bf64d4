/** Stream events turned into payment amounts, and why these amounts are a time integral. */
module SuperfluidRetriever {
  import opened Wrappers

  datatype EventType = BEGIN | UPDATE | END

  /**
   A change of the flow from a sender towards an address. Only the event added for an
   ongoing stream has no type and no sender.
   */
  datatype FlowEvent = FlowEvent(kind: Option<EventType>, oldFlowRate: int, flowRate: int, timestamp: int, sender: string)

  datatype StreamName = START_STREAM | UPDATE_STREAM | END_STREAM

  datatype Payment = Payment(amount: int, timestamp: int, streamEventName: Option<StreamName>)

  /** The name of an event; a begin event has none, because its type is 0. */
  function EventName(e: FlowEvent): Option<StreamName> {
    match e.kind
    case Some(UPDATE) => Some(UPDATE_STREAM)
    case Some(END) => Some(END_STREAM)
    case _ => None
  }

  predicate Ongoing(events: seq<FlowEvent>) {
    events != [] && events[|events| - 1].flowRate > 0
  }

  /** The events, closed now when the last one is ongoing. */
  function Closed(events: seq<FlowEvent>, now: int): seq<FlowEvent> {
    if Ongoing(events) then events + [FlowEvent(None, events[|events| - 1].flowRate, 0, now, "")] else events
  }

  /** A rate held from one time until another. */
  function Amount(rate: int, from: int, until: int): int {
    rate * (until - from)
  }

  /** The payment between two consecutive events, if any. */
  function PaymentBetween(previous: FlowEvent, current: FlowEvent): seq<Payment> {
    if previous.kind == Some(END) || current.kind == Some(BEGIN) then []
    else
      var diffFlowRate := previous.flowRate - previous.oldFlowRate;
      if diffFlowRate < 0 then []
      else [Payment(Amount(diffFlowRate, previous.timestamp, current.timestamp), current.timestamp, EventName(current))]
  }

  function Payments(events: seq<FlowEvent>): seq<Payment> {
    if |events| < 2 then []
    else Payments(events[..|events| - 1]) + PaymentBetween(events[|events| - 2], events[|events| - 1])
  }

  /** The last payment of an ongoing stream is named a start. */
  function Renamed(payments: seq<Payment>, ongoing: bool): seq<Payment> {
    if payments != [] && ongoing
    then payments[|payments| - 1 := payments[|payments| - 1].(streamEventName := Some(START_STREAM))]
    else payments
  }

  /** The loop of the program, with its `continue` branches. */
  method StreamPayments(streamEvents: seq<FlowEvent>, now: int) returns (payments: seq<Payment>)
    ensures payments == Renamed(Payments(Closed(streamEvents, now)), Ongoing(streamEvents))
  {
    hide Payments;
    payments := [];
    if |streamEvents| >= 1 {
      var events := streamEvents;
      var lastEventOngoing := events[|events| - 1].flowRate > 0;
      if lastEventOngoing {
        events := events + [FlowEvent(None, events[|events| - 1].flowRate, 0, now, "")];
      }
      NoPayment(events[..1]);
      for index := 1 to |events|
        invariant payments == Payments(events[..index])
      {
        PaymentsStep(events, index);
        if events[index - 1].kind == Some(END) || events[index].kind == Some(BEGIN) {
          continue;
        }
        var diffFlowRate := events[index - 1].flowRate - events[index - 1].oldFlowRate;
        if diffFlowRate < 0 {
          continue;
        }
        var amount := diffFlowRate * (events[index].timestamp - events[index - 1].timestamp);
        payments := payments + [Payment(amount, events[index].timestamp, EventName(events[index]))];
      }
      assert events[..|events|] == events;
      if |payments| > 0 && lastEventOngoing {
        payments := payments[|payments| - 1 := payments[|payments| - 1].(streamEventName := Some(START_STREAM))];
      }
    } else {
      NoPayment(streamEvents);
    }
  }

  lemma PaymentsStep(events: seq<FlowEvent>, index: nat)
    requires 1 <= index < |events|
    ensures Payments(events[..index + 1]) == Payments(events[..index]) + PaymentBetween(events[index - 1], events[index])
  {
    assert events[..index + 1][..index] == events[..index];
  }

  lemma NoPayment(events: seq<FlowEvent>)
    requires |events| < 2
    ensures Payments(events) == []
  {
  }

  // ---------- the integral ----------

  function Total(payments: seq<Payment>): int {
    if payments == [] then 0 else Total(payments[..|payments| - 1]) + payments[|payments| - 1].amount
  }

  /** What the events have added to the flow of one sender, on top of any base flow. An END stops all of it, the base flow included. */
  function OwnOf(events: seq<FlowEvent>, sender: string): int {
    if events == [] then 0
    else
      var front, last := events[..|events| - 1], events[|events| - 1];
      if last.sender != sender then OwnOf(front, sender)
      else if last.kind == Some(END) then 0
      else OwnOf(front, sender) + last.flowRate - last.oldFlowRate
  }

  /** The flow of the reference itself: what its events have added, for all senders together. */
  function Own(events: seq<FlowEvent>): int {
    if events == [] then 0
    else
      var front, last := events[..|events| - 1], events[|events| - 1];
      if last.kind == Some(END) then Own(front) - OwnOf(front, last.sender)
      else Own(front) + last.flowRate - last.oldFlowRate
  }

  /** The events up to a second. */
  function Happened(events: seq<FlowEvent>, t: int): seq<FlowEvent> {
    if events == [] then []
    else
      var front, last := Happened(events[..|events| - 1], t), events[|events| - 1];
      if last.timestamp <= t then front + [last] else front
  }

  /** The own flow at a second. */
  function NetRate(events: seq<FlowEvent>, t: int): int {
    Own(Happened(events, t))
  }

  /** The flow that the events have added, summed over every second of an interval. */
  function Integral(events: seq<FlowEvent>, from: int, until: int): int
    decreases until - from
  {
    if from >= until then 0 else Integral(events, from, until - 1) + NetRate(events, until - 1)
  }

  ghost predicate Sorted(events: seq<FlowEvent>) {
    forall i, j :: 0 <= i < j < |events| ==> events[i].timestamp <= events[j].timestamp
  }

  lemma InOrder(events: seq<FlowEvent>, i: nat, j: nat)
    requires Sorted(events) && i <= j < |events|
    ensures events[i].timestamp <= events[j].timestamp
  {
  }

  lemma SortedPrefix(events: seq<FlowEvent>, n: nat)
    requires Sorted(events) && n <= |events|
    ensures Sorted(events[..n])
  {
  }

  lemma {:induction false} NetRateAfterAll(events: seq<FlowEvent>, t: int)
    requires forall i :: 0 <= i < |events| ==> events[i].timestamp <= t
    ensures Happened(events, t) == events
  {
    if events != [] {
      NetRateAfterAll(events[..|events| - 1], t);
    }
  }

  lemma {:induction false} IntegralAfterAll(events: seq<FlowEvent>, from: int, until: int)
    requires from <= until && forall i :: 0 <= i < |events| ==> events[i].timestamp <= from
    ensures Integral(events, from, until) == Amount(Own(events), from, until)
    decreases until - from
  {
    if from < until {
      IntegralAfterAll(events, from, until - 1);
      NetRateAfterAll(events, until - 1);
      assert Own(events) * (until - from) == Own(events) * (until - 1 - from) + Own(events);
    }
  }

  lemma {:induction false} IntegralSplits(events: seq<FlowEvent>, from: int, middle: int, until: int)
    requires from <= middle <= until
    ensures Integral(events, from, until) == Integral(events, from, middle) + Integral(events, middle, until)
    decreases until - middle
  {
    if middle < until {
      IntegralSplits(events, from, middle, until - 1);
    }
  }

  /** A later event does not count before its time. */
  lemma {:induction false} IntegralBeforeLast(events: seq<FlowEvent>, from: int, until: int)
    requires events != [] && until <= events[|events| - 1].timestamp
    ensures Integral(events, from, until) == Integral(events[..|events| - 1], from, until)
    decreases until - from
  {
    if from < until {
      IntegralBeforeLast(events, from, until - 1);
    }
  }

  // ---------- what the payments miss ----------

  /** The time after an event is paid for what the event adds. */
  predicate Pays(e: FlowEvent, next: FlowEvent) {
    e.kind != Some(END) && next.kind != Some(BEGIN) && e.flowRate >= e.oldFlowRate
  }

  /** The time after an event is paid, up to the next event or, when ongoing, up to now. */
  predicate IsPaid(events: seq<FlowEvent>, i: nat)
    requires i < |events|
  {
    if i + 1 < |events| then Pays(events[i], events[i + 1])
    else events[i].flowRate > 0 && Pays(events[i], FlowEvent(None, 0, 0, 0, ""))
  }

  /** The part of the own flow that is not paid after an event: what was there before it if it is paid, else all. */
  function Kept(events: seq<FlowEvent>, i: nat): int
    requires i < |events|
  {
    if IsPaid(events, i) then Own(events[..i]) else Own(events[..i + 1])
  }

  /** The end of the time after an event. */
  function Until(events: seq<FlowEvent>, now: int, i: nat): int
    requires i < |events|
  {
    if i + 1 < |events| then events[i + 1].timestamp else now
  }

  function Shortfall(events: seq<FlowEvent>, now: int, n: nat): int
    requires n <= |events|
  {
    if n == 0 then 0
    else Shortfall(events, now, n - 1) + Amount(Kept(events, n - 1), events[n - 1].timestamp, Until(events, now, n - 1))
  }

  /** What is paid for some time after an event, and what is missed, are together what is due. */
  lemma PaidAndMissed(events: seq<FlowEvent>, i: nat, until: int)
    requires i < |events|
    ensures var e := events[i];
      (if IsPaid(events, i) then Amount(e.flowRate - e.oldFlowRate, e.timestamp, until) else 0)
        + Amount(Kept(events, i), e.timestamp, until)
        == Amount(Own(events[..i + 1]), e.timestamp, until)
  {
    hide Own, OwnOf;
    var e, before := events[i], Own(events[..i]);
    OwnStep(events, i);
    var time := until - e.timestamp;
    assert (e.flowRate - e.oldFlowRate) * time + before * time == (before + e.flowRate - e.oldFlowRate) * time;
  }

  lemma OwnStep(events: seq<FlowEvent>, i: nat)
    requires i < |events|
    ensures var e, before := events[i], events[..i];
      Own(events[..i + 1]) ==
        if e.kind == Some(END) then Own(before) - OwnOf(before, e.sender) else Own(before) + e.flowRate - e.oldFlowRate
  {
    assert events[..i + 1][..i] == events[..i];
  }

  lemma TotalConcat(a: seq<Payment>, p: seq<Payment>)
    requires |p| <= 1
    ensures Total(a + p) == Total(a) + if p == [] then 0 else p[0].amount
  {
    if p == [] {
      assert a + p == a;
    } else {
      assert (a + p)[..|a|] == a;
    }
  }

  /** One more event pays for the time before it. */
  lemma PaidUntilEvent(events: seq<FlowEvent>, i: nat)
    requires i + 1 < |events|
    ensures Total(Payments(events[..i + 2])) + Amount(Kept(events, i), events[i].timestamp, events[i + 1].timestamp)
         == Total(Payments(events[..i + 1])) + Amount(Own(events[..i + 1]), events[i].timestamp, events[i + 1].timestamp)
  {
    hide Kept, Own, Payments, Total, Amount;
    PaymentsStep(events, i + 1);
    TotalConcat(Payments(events[..i + 1]), PaymentBetween(events[i], events[i + 1]));
    PaidAndMissed(events, i, events[i + 1].timestamp);
  }

  lemma {:induction false} PaidAndShort(events: seq<FlowEvent>, now: int, n: nat)
    requires Sorted(events) && n < |events|
    ensures Total(Payments(events[..n + 1])) + Shortfall(events, now, n)
         == Integral(events[..n + 1], events[0].timestamp, events[n].timestamp)
  {
    if n == 0 {
      NoPayment(events[..1]);
    } else {
      hide Payments, Total, Integral, Own, Kept, Amount;
      PaidAndShort(events, now, n - 1);
      PaidUntilEvent(events, n - 1);
      IntegralStep(events, n);
    }
  }

  lemma IntegralStep(events: seq<FlowEvent>, n: nat)
    requires Sorted(events) && 0 < n < |events|
    ensures var from, until := events[n - 1].timestamp, events[n].timestamp;
      Integral(events[..n + 1], events[0].timestamp, until)
        == Integral(events[..n], events[0].timestamp, from) + Amount(Own(events[..n]), from, until)
  {
    hide Integral, Own, Amount;
    var from, until := events[n - 1].timestamp, events[n].timestamp;
    assert events[..n + 1][..n] == events[..n];
    IntegralBeforeLast(events[..n + 1], events[0].timestamp, until);
    IntegralSplits(events[..n], events[0].timestamp, from, until);
    IntegralAfterAll(events[..n], from, until);
  }

  /** Until now: the event that closes an ongoing stream pays for the time after the last event. */
  lemma PaidUntilNow(events: seq<FlowEvent>, now: int)
    requires events != []
    ensures var n := |events| - 1;
      Total(Payments(Closed(events, now))) + Amount(Kept(events, n), events[n].timestamp, now)
        == Total(Payments(events)) + Amount(Own(events), events[n].timestamp, now)
  {
    hide Payments, Total, Own, Kept, Amount, Closed, IsPaid;
    var n := |events| - 1;
    assert events[..n + 1] == events;
    PaidAndMissed(events, n, now);
    TotalOfClosed(events, now);
  }

  lemma TotalOfClosed(events: seq<FlowEvent>, now: int)
    requires events != []
    ensures var last := events[|events| - 1];
      Total(Payments(Closed(events, now))) == Total(Payments(events)) +
        if IsPaid(events, |events| - 1) then Amount(last.flowRate - last.oldFlowRate, last.timestamp, now) else 0
  {
    hide Payments, Total, Amount;
    if Ongoing(events) {
      var last := events[|events| - 1];
      var closing := FlowEvent(None, last.flowRate, 0, now, "");
      PaymentsSnoc(events, closing);
      TotalConcat(Payments(events), PaymentBetween(last, closing));
    }
  }

  lemma PaymentsSnoc(events: seq<FlowEvent>, e: FlowEvent)
    requires events != []
    ensures Payments(events + [e]) == Payments(events) + PaymentBetween(events[|events| - 1], e)
  {
    assert (events + [e])[..|events|] == events;
  }

  lemma RenamingKeepsTotal(payments: seq<Payment>, ongoing: bool)
    ensures Total(Renamed(payments, ongoing)) == Total(payments)
  {
    if payments != [] {
      assert Renamed(payments, ongoing)[..|payments| - 1] == payments[..|payments| - 1];
    }
  }

  /** What the program reports as paid, and what the events have streamed since the first of them. */
  function Paid(events: seq<FlowEvent>, now: int): int {
    Total(Renamed(Payments(Closed(events, now)), Ongoing(events)))
  }

  function Due(events: seq<FlowEvent>, now: int): int
    requires events != []
  {
    Integral(events, events[0].timestamp, now)
  }

  /** For any events sorted by time, the amounts and what they miss add up to the time integral. */
  lemma AmountsPlusShortfall(events: seq<FlowEvent>, now: int)
    requires Sorted(events) && events != [] && events[|events| - 1].timestamp <= now
    ensures Paid(events, now) + Shortfall(events, now, |events|) == Due(events, now)
  {
    hide Payments, Renamed, Closed, Integral, Own, Amount, Kept, Total, Sorted;
    var n := |events| - 1;
    assert events[..n + 1] == events;
    PaidAndShort(events, now, n);
    PaidUntilNow(events, now);
    RenamingKeepsTotal(Payments(Closed(events, now)), Ongoing(events));
    InOrder(events, 0, n);
    AllBefore(events);
    IntegralSplits(events, events[0].timestamp, events[n].timestamp, now);
    IntegralAfterAll(events, events[n].timestamp, now);
  }

  lemma AllBefore(events: seq<FlowEvent>)
    requires Sorted(events) && events != []
    ensures forall i :: 0 <= i < |events| ==> events[i].timestamp <= events[|events| - 1].timestamp
  {
  }

  /** The own flow of the reference is never negative: no event takes back more than was added. */
  ghost predicate NeverNegative(events: seq<FlowEvent>) {
    forall i :: 0 <= i <= |events| ==> Own(events[..i]) >= 0
  }

  /** Nothing is missed after the event, or it is replaced at once. */
  predicate KeepsNothing(events: seq<FlowEvent>, now: int, i: nat)
    requires i < |events|
  {
    Kept(events, i) == 0 || events[i].timestamp == Until(events, now, i)
  }

  lemma NothingLost(rate: int, time: int)
    requires rate >= 0 && time >= 0
    ensures rate * time >= 0 && (rate * time == 0 <==> rate == 0 || time == 0)
  {
  }

  lemma KeptIsNonNegative(events: seq<FlowEvent>, now: int, i: nat)
    requires Sorted(events) && NeverNegative(events) && i < |events| && events[|events| - 1].timestamp <= now
    ensures Kept(events, i) >= 0 && Until(events, now, i) >= events[i].timestamp
  {
  }

  lemma {:induction false} NoShortfallIff(events: seq<FlowEvent>, now: int, n: nat)
    requires Sorted(events) && NeverNegative(events) && n <= |events|
    requires events != [] ==> events[|events| - 1].timestamp <= now
    ensures Shortfall(events, now, n) >= 0
    ensures Shortfall(events, now, n) == 0 <==> forall i: nat :: i < n ==> KeepsNothing(events, now, i)
  {
    if n > 0 {
      NoShortfallIff(events, now, n - 1);
      KeptIsNonNegative(events, now, n - 1);
      hide Kept, Until, NeverNegative, Sorted;
      var kept, time := Kept(events, n - 1), Until(events, now, n - 1) - events[n - 1].timestamp;
      NothingLost(kept, time);
      assert Shortfall(events, now, n) == Shortfall(events, now, n - 1) + kept * time;
      assert KeepsNothing(events, now, n - 1) <==> kept * time == 0;
    }
  }

  /**
   When the amounts are the time integral. For any events sorted by time whose own
   flow is never negative, whatever the base flow does in between, the amounts never
   exceed the integral, and reach it iff every event that lasts keeps nothing: it
   starts from nothing and is paid, or it leaves nothing.
   */
  lemma AmountsFallShortIff(events: seq<FlowEvent>, now: int)
    requires Sorted(events) && NeverNegative(events) && events != [] && events[|events| - 1].timestamp <= now
    ensures Paid(events, now) <= Due(events, now)
    ensures Paid(events, now) == Due(events, now) <==> forall i: nat :: i < |events| ==> KeepsNothing(events, now, i)
  {
    hide Paid, Due, KeepsNothing, Shortfall;
    AmountsPlusShortfall(events, now);
    NoShortfallIff(events, now, |events|);
  }

  /** The failing family: an update that lowers a flow without stopping it is paid as if it stopped. */
  lemma LoweredStreamIsUnderpaid(rate: int, kept: int, from: int, at: int, now: int, sender: string)
    requires 0 < kept < rate && from <= at < now
    ensures var events := [FlowEvent(Some(BEGIN), 0, rate, from, sender), FlowEvent(Some(UPDATE), rate, kept, at, sender)];
      Paid(events, now) < Due(events, now)
  {
    hide Paid, Due;
    var events := [FlowEvent(Some(BEGIN), 0, rate, from, sender), FlowEvent(Some(UPDATE), rate, kept, at, sender)];
    assert events[..0] == [] && events[..2] == events;
    OwnStep(events, 0);
    OwnStep(events, 1);
    AmountsFallShortIff(events, now);
    assert !KeepsNothing(events, now, 1);
  }

  /** Another one: after the END of another sender, a stream that goes on is paid no more. */
  lemma EndOfAnotherSenderStopsPayment(rate: int, other: int, from: int, at: int, now: int, sender: string, another: string)
    requires 0 < rate && from <= at < now && sender != another
    ensures var events := [FlowEvent(Some(BEGIN), 0, rate, from, sender), FlowEvent(Some(END), other, 0, at, another)];
      Paid(events, now) < Due(events, now)
  {
    hide Paid, Due;
    var events := [FlowEvent(Some(BEGIN), 0, rate, from, sender), FlowEvent(Some(END), other, 0, at, another)];
    assert events[..0] == [] && events[..2] == events;
    OwnStep(events, 0);
    OwnStep(events, 1);
    assert events[..1][..0] == [] && OwnOf(events[..1], another) == 0;
    AmountsFallShortIff(events, now);
    assert !KeepsNothing(events, now, 1);
  }

  // ---------- starts and stops ----------

  ghost predicate NonNegative(payments: seq<Payment>) {
    forall i :: 0 <= i < |payments| ==> payments[i].amount >= 0
  }

  /** No amount is negative, for any events sorted by time. */
  lemma {:induction false} PaymentsAreNonNegative(events: seq<FlowEvent>)
    requires Sorted(events)
    ensures NonNegative(Payments(events))
  {
    var n := |events| - 1;
    if n >= 1 {
      SortedPrefix(events, n);
      PaymentsAreNonNegative(events[..n]);
      var p := PaymentBetween(events[n - 1], events[n]);
      if p != [] {
        NothingLost(events[n - 1].flowRate - events[n - 1].oldFlowRate, events[n].timestamp - events[n - 1].timestamp);
      }
    }
  }

  lemma ReportedAreNonNegative(events: seq<FlowEvent>, now: int)
    requires Sorted(events) && (events != [] ==> events[|events| - 1].timestamp <= now)
    ensures NonNegative(Renamed(Payments(Closed(events, now)), Ongoing(events)))
  {
    hide Payments;
    assert Sorted(Closed(events, now));
    PaymentsAreNonNegative(Closed(events, now));
  }

  predicate IsStart(e: FlowEvent) {
    (e.kind == Some(BEGIN) || e.kind == Some(UPDATE)) && 0 <= e.oldFlowRate < e.flowRate
  }

  /**
   Starts and stops of one reference alternate, on top of any base flow; the last
   start may still be ongoing. A stop is an update that takes back what the start has
   added, or the END of the sender, which takes the base flow as well. Further ENDs
   may come while nothing of the reference flows.
   */
  ghost predicate Alternates(events: seq<FlowEvent>) {
    forall i :: 0 <= i < |events| ==> InTurn(events, i)
  }

  predicate InTurn(events: seq<FlowEvent>, i: int)
    requires 0 <= i < |events|
  {
    var e, before := events[i], events[..i];
    || (Own(before) == 0 && IsStart(e))
    || (e.kind == Some(UPDATE) && Own(before) > 0 && e.oldFlowRate - e.flowRate == Own(before))
    || (e.kind == Some(END) && OwnOf(before, e.sender) == Own(before))
  }

  /** After a start the own flow is what it adds; after a stop there is none. */
  lemma {:induction false} OwnOfAlternation(events: seq<FlowEvent>, n: nat)
    requires Alternates(events) && n <= |events|
    ensures Own(events[..n]) == if n > 0 && IsStart(events[n - 1]) then events[n - 1].flowRate - events[n - 1].oldFlowRate else 0
    ensures Own(events[..n]) >= 0
  {
    if n > 0 {
      hide Own, OwnOf;
      OwnOfAlternation(events, n - 1);
      OwnStep(events, n - 1);
      assert InTurn(events, n - 1);
    } else {
      assert events[..0] == [];
    }
  }

  lemma AlternationKeepsNothing(events: seq<FlowEvent>, i: nat)
    requires Alternates(events) && i < |events|
    ensures Kept(events, i) == 0
  {
    hide Own, OwnOf;
    OwnOfAlternation(events, i);
    OwnOfAlternation(events, i + 1);
    assert InTurn(events, i);
    assert i + 1 < |events| ==> InTurn(events, i + 1);
  }

  /**
   Stream amounts are a time integral. For any time-sorted alternation of starts
   and stops on top of any base flow, every amount is non-negative and the amounts
   sum to the flow that the events have added, integrated second by second from the
   first event until now.
   */
  lemma StreamAmountsAreTheIntegral(events: seq<FlowEvent>, now: int)
    requires Alternates(events) && Sorted(events) && events != [] && events[|events| - 1].timestamp <= now
    ensures Paid(events, now) == Due(events, now)
    ensures NonNegative(Renamed(Payments(Closed(events, now)), Ongoing(events)))
  {
    hide Paid, Due, Alternates, Own, Kept, Payments, Closed, Renamed;
    ReportedAreNonNegative(events, now);
    forall i | 0 <= i <= |events| ensures Own(events[..i]) >= 0 {
      OwnOfAlternation(events, i);
    }
    forall i: nat | i < |events| ensures KeepsNothing(events, now, i) {
      AlternationKeepsNothing(events, i);
    }
    AmountsFallShortIff(events, now);
  }

  /**
   Two requests on one stream: an update adds the rate of the second request to that
   of the first, and an END stops both. The second is paid its own rate for its time.
   */
  lemma NestedRequestsArePaid(base: int, rate: int, from: int, until: int, now: int, sender: string)
    requires base >= 0 && rate > 0 && from <= until <= now
    ensures var events := [FlowEvent(Some(UPDATE), base, base + rate, from, sender), FlowEvent(Some(END), base + rate, 0, until, sender)];
      Paid(events, now) == Due(events, now) == Amount(rate, from, until)
  {
    hide Due, Paid, Sorted, Alternates, Amount;
    var events := [FlowEvent(Some(UPDATE), base, base + rate, from, sender), FlowEvent(Some(END), base + rate, 0, until, sender)];
    NestedRequestsAlternate(base, rate, from, until, sender);
    StreamAmountsAreTheIntegral(events, now);
    NestedPayment(base, rate, from, until, now, sender);
  }

  lemma NestedRequestsAlternate(base: int, rate: int, from: int, until: int, sender: string)
    requires base >= 0 && rate > 0 && from <= until
    ensures var events := [FlowEvent(Some(UPDATE), base, base + rate, from, sender), FlowEvent(Some(END), base + rate, 0, until, sender)];
      Sorted(events) && Alternates(events)
  {
    var events := [FlowEvent(Some(UPDATE), base, base + rate, from, sender), FlowEvent(Some(END), base + rate, 0, until, sender)];
    assert events[..0] == [] && events[..1] == [events[0]] && [events[0]][..0] == [];
    assert InTurn(events, 0) && InTurn(events, 1);
  }

  lemma NestedPayment(base: int, rate: int, from: int, until: int, now: int, sender: string)
    requires base >= 0 && rate > 0
    ensures var events := [FlowEvent(Some(UPDATE), base, base + rate, from, sender), FlowEvent(Some(END), base + rate, 0, until, sender)];
      Paid(events, now) == Amount(rate, from, until)
  {
    hide Payments, Total, Amount, Renamed;
    var events := [FlowEvent(Some(UPDATE), base, base + rate, from, sender), FlowEvent(Some(END), base + rate, 0, until, sender)];
    assert events[..1] == [events[0]] && events[..2] == events;
    NoPayment(events[..1]);
    PaymentsStep(events, 1);
    var p := PaymentBetween(events[0], events[1]);
    assert |p| == 1 && p[0].amount == Amount(rate, from, until);
    TotalConcat([], p);
    NoTotal();
    RenamingKeepsTotal(Payments(events), Ongoing(events));
  }

  lemma NoTotal()
    ensures Total([]) == 0
  {
  }

  // ---------- what each payment says ----------

  /** The events, among the first ones, after which the time is paid. */
  function PaidIndices(events: seq<FlowEvent>, n: nat): seq<int>
    requires n <= |events|
  {
    if n == 0 then []
    else if IsPaid(events, n - 1) then PaidIndices(events, n - 1) + [n - 1]
    else PaidIndices(events, n - 1)
  }

  lemma {:induction false} PaidIndicesAre(events: seq<FlowEvent>, n: nat)
    requires n <= |events|
    ensures forall i: nat :: i in PaidIndices(events, n) <==> i < n && IsPaid(events, i)
    ensures forall k :: 0 <= k < |PaidIndices(events, n)| ==> 0 <= PaidIndices(events, n)[k] < n
    ensures forall j, k :: 0 <= j < k < |PaidIndices(events, n)| ==> PaidIndices(events, n)[j] < PaidIndices(events, n)[k]
  {
    if n > 0 {
      hide IsPaid;
      PaidIndicesAre(events, n - 1);
    }
  }

  /** The payment is for the time after an event: what the event adds, until the next event or now, named after what ends that time. */
  predicate PaysFor(p: Payment, events: seq<FlowEvent>, now: int, i: int)
    requires 0 <= i < |events|
  {
    && p.timestamp == Until(events, now, i)
    && p.amount == (events[i].flowRate - events[i].oldFlowRate) * (p.timestamp - events[i].timestamp)
    && if i + 1 == |events| then p.streamEventName == None
       else if events[i + 1].kind == Some(UPDATE) then p.streamEventName == Some(UPDATE_STREAM)
       else if events[i + 1].kind == Some(END) then p.streamEventName == Some(END_STREAM)
       else p.streamEventName == None
  }

  /** The payments are those after the given events, in order. */
  ghost predicate ArePaid(payments: seq<Payment>, indices: seq<int>, events: seq<FlowEvent>, now: int)
    requires forall k :: 0 <= k < |indices| ==> 0 <= indices[k] < |events|
  {
    |payments| == |indices| && forall k :: 0 <= k < |indices| ==> PaysFor(payments[k], events, now, indices[k])
  }

  lemma OnePayment(events: seq<FlowEvent>, now: int, i: nat)
    requires i + 1 < |events|
    ensures var p := PaymentBetween(events[i], events[i + 1]);
      if IsPaid(events, i) then |p| == 1 && PaysFor(p[0], events, now, i) else p == []
  {
  }

  lemma ArePaidSnoc(payments: seq<Payment>, indices: seq<int>, events: seq<FlowEvent>, now: int, p: Payment, i: int)
    requires (forall k :: 0 <= k < |indices| ==> 0 <= indices[k] < |events|) && 0 <= i < |events|
    requires ArePaid(payments, indices, events, now) && PaysFor(p, events, now, i)
    ensures forall k :: 0 <= k < |indices + [i]| ==> 0 <= (indices + [i])[k] < |events|
    ensures ArePaid(payments + [p], indices + [i], events, now)
  {
    hide PaysFor;
  }

  lemma {:induction false} PaymentsAre(events: seq<FlowEvent>, now: int, n: nat)
    requires n < |events|
    ensures forall k :: 0 <= k < |PaidIndices(events, n)| ==> 0 <= PaidIndices(events, n)[k] < n
    ensures ArePaid(Payments(events[..n + 1]), PaidIndices(events, n), events, now)
  {
    PaidIndicesAre(events, n);
    if n == 0 {
      NoPayment(events[..1]);
    } else {
      hide Payments, IsPaid, PaysFor, PaymentBetween, ArePaid;
      PaymentsAre(events, now, n - 1);
      PaymentsStep(events, n);
      OnePayment(events, now, n - 1);
      if IsPaid(events, n - 1) {
        ArePaidSnoc(Payments(events[..n]), PaidIndices(events, n - 1), events, now, PaymentBetween(events[n - 1], events[n])[0], n - 1);
      } else {
        assert Payments(events[..n]) + [] == Payments(events[..n]);
      }
    }
  }

  lemma ClosedPaymentsAre(events: seq<FlowEvent>, now: int)
    requires events != []
    ensures forall k :: 0 <= k < |PaidIndices(events, |events|)| ==> 0 <= PaidIndices(events, |events|)[k] < |events|
    ensures ArePaid(Payments(Closed(events, now)), PaidIndices(events, |events|), events, now)
  {
    hide Payments;
    var n := |events| - 1;
    PaidIndicesAre(events, n);
    PaidIndicesAre(events, n + 1);
    PaymentsAre(events, now, n);
    assert events[..n + 1] == events;
    if Ongoing(events) {
      PaymentsSnoc(events, FlowEvent(None, events[n].flowRate, 0, now, ""));
    }
  }

  /**
   What is reported, payment by payment: one for each event after which the time is
   paid, in order, with the amount of that time, the timestamp at its end and the name
   of the event that ends it. The last payment of an ongoing stream is named a start.
   */
  lemma PaymentsSayWhatIsPaid(events: seq<FlowEvent>, now: int)
    requires events != []
    ensures var reported, paid := Renamed(Payments(Closed(events, now)), Ongoing(events)), PaidIndices(events, |events|);
      && |reported| == |paid|
      && (forall i: nat :: i in paid <==> i < |events| && IsPaid(events, i))
      && (forall j, k :: 0 <= j < k < |paid| ==> 0 <= paid[j] < paid[k] < |events|)
      && (forall k :: 0 <= k < |paid| ==>
            && 0 <= paid[k] < |events|
            && if k == |paid| - 1 && events[|events| - 1].flowRate > 0 then
                 && reported[k].streamEventName == Some(START_STREAM)
                 && exists name :: PaysFor(reported[k].(streamEventName := name), events, now, paid[k])
               else PaysFor(reported[k], events, now, paid[k]))
  {
    hide Payments, Closed, PaysFor, IsPaid, PaidIndices;
    var payments, paid := Payments(Closed(events, now)), PaidIndices(events, |events|);
    PaidIndicesAre(events, |events|);
    ClosedPaymentsAre(events, now);
    if paid != [] {
      var last := payments[|paid| - 1];
      assert last.(streamEventName := Some(START_STREAM)).(streamEventName := last.streamEventName) == last;
    }
  }

  // ---------- any updates of one stream ----------

  /** The base flow before an event: an END has stopped it. */
  function Base(events: seq<FlowEvent>, base: int, i: nat): int
    requires i <= |events|
  {
    if i == 0 then base else if events[i - 1].kind == Some(END) then 0 else Base(events, base, i - 1)
  }

  /** The history of a single stream on a base flow: every event takes over the rate that the one before left. */
  ghost predicate OneStream(events: seq<FlowEvent>, base: int, sender: string) {
    base >= 0 && forall i :: 0 <= i < |events| ==> TakesOver(events, base, sender, i)
  }

  predicate TakesOver(events: seq<FlowEvent>, base: int, sender: string, i: int)
    requires 0 <= i < |events|
  {
    && events[i].kind.Some? && events[i].sender == sender
    && events[i].oldFlowRate == (if i == 0 then base else events[i - 1].flowRate)
    && (events[i].kind == Some(BEGIN) ==> events[i].oldFlowRate == 0)
    && (if events[i].kind == Some(END) then events[i].flowRate == 0 else events[i].flowRate >= Base(events, base, i))
  }

  lemma {:induction false} OwnOfStream(events: seq<FlowEvent>, base: int, sender: string, n: nat)
    requires OneStream(events, base, sender) && n <= |events|
    ensures Own(events[..n]) == OwnOf(events[..n], sender)
    ensures Own(events[..n]) == (if n == 0 then 0 else events[n - 1].flowRate - Base(events, base, n)) >= 0
    ensures 0 <= Base(events, base, n) <= base
  {
    if n > 0 {
      OwnOfStream(events, base, sender, n - 1);
      OwnStep(events, n - 1);
      assert events[..n][..n - 1] == events[..n - 1];
      assert TakesOver(events, base, sender, n - 1);
    } else {
      assert events[..0] == [];
    }
  }

  /** The event starts from the base flow or returns to it, or ends the stream, or is replaced at once. */
  predicate StartsOrStops(events: seq<FlowEvent>, base: int, now: int, i: nat)
    requires i < |events|
  {
    || events[i].kind == Some(END) || events[i].oldFlowRate == Base(events, base, i) || events[i].flowRate == Base(events, base, i)
    || events[i].timestamp == Until(events, now, i)
  }

  lemma KeptByStream(events: seq<FlowEvent>, base: int, sender: string, now: int, i: nat)
    requires OneStream(events, base, sender) && i < |events|
    ensures KeepsNothing(events, now, i) <==> StartsOrStops(events, base, now, i)
  {
    hide Own, OwnOf;
    OwnOfStream(events, base, sender, i);
    OwnOfStream(events, base, sender, i + 1);
    assert TakesOver(events, base, sender, i);
    assert i > 0 ==> TakesOver(events, base, sender, i - 1);
    assert i + 1 < |events| ==> TakesOver(events, base, sender, i + 1);
  }

  /**
   In terms of the rates: the amounts of a stream on a base flow are the time
   integral iff every event that lasts starts from the base flow, returns to it or
   ends the stream.
   */
  lemma StreamOnBaseFallsShortIff(events: seq<FlowEvent>, base: int, sender: string, now: int)
    requires OneStream(events, base, sender) && Sorted(events) && events != [] && events[|events| - 1].timestamp <= now
    ensures Paid(events, now) <= Due(events, now)
    ensures Paid(events, now) == Due(events, now) <==> forall i: nat :: i < |events| ==> StartsOrStops(events, base, now, i)
  {
    hide Paid, Due, Own, Kept, OneStream, StartsOrStops, KeepsNothing;
    forall i | 0 <= i <= |events| ensures Own(events[..i]) >= 0 {
      OwnOfStream(events, base, sender, i);
    }
    forall i: nat | i < |events| ensures KeepsNothing(events, now, i) <==> StartsOrStops(events, base, now, i) {
      KeptByStream(events, base, sender, now, i);
    }
    AmountsFallShortIff(events, now);
  }
}
