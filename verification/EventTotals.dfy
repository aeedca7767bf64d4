/** Balances and fees as totals of what each event adds, and the sort of events by time. */
module EventTotals {
  import opened Sequences
  import opened Wrappers
  import opened MetaDetector

  // ---------- totals ----------

  /** What one event adds to a balance. */
  function Weight(e: Event): int {
    match e.name
    case PAYMENT => e.amount
    case REFUND => -e.amount
    case OTHER_EVENT => 0
  }

  /** What one event adds to the fees of an address: its fee, unless the fee went to somebody else. */
  function FeeWeight(e: Event, feeAddress: string): int {
    match (e.feeAmount, e.feeAddress)
    case (None, _) => 0
    case (Some(fee), None) => fee
    case (Some(fee), Some(paidTo)) => if paidTo == "" || paidTo == feeAddress then fee else 0
  }

  function FeesTo(feeAddress: string): Event -> int {
    (e: Event) => FeeWeight(e, feeAddress)
  }

  function Total(weight: Event -> int, events: seq<Event>): int {
    if events == [] then 0 else weight(events[0]) + Total(weight, events[1..])
  }

  lemma {:induction false} TotalConcat(weight: Event -> int, a: seq<Event>, b: seq<Event>)
    ensures Total(weight, a + b) == Total(weight, a) + Total(weight, b)
  {
    if a == [] {
      assert a + b == b;
    } else {
      assert (a + b)[1..] == a[1..] + b;
      TotalConcat(weight, a[1..], b);
    }
  }

  lemma TotalSnoc(weight: Event -> int, s: seq<Event>)
    requires s != []
    ensures Total(weight, s) == Total(weight, s[..|s| - 1]) + weight(s[|s| - 1])
  {
    var last := [s[|s| - 1]];
    assert s == s[..|s| - 1] + last && last[1..] == [];
    TotalConcat(weight, s[..|s| - 1], last);
  }

  lemma TotalWithout(weight: Event -> int, a: seq<Event>, e: Event, b: seq<Event>)
    ensures Total(weight, a + [e] + b) == Total(weight, a + b) + weight(e)
  {
    TotalConcat(weight, a + [e], b);
    TotalConcat(weight, a, b);
    TotalSnoc(weight, a + [e]);
    assert (a + [e])[..|a|] == a;
  }

  /** A total depends on the events only as a multiset. */
  lemma {:induction false} TotalIgnoresOrder(weight: Event -> int, s: seq<Event>, t: seq<Event>)
    requires multiset(s) == multiset(t)
    ensures Total(weight, s) == Total(weight, t)
    decreases |s|
  {
    if s == [] {
      assert |t| == |multiset(t)| == 0;
    } else {
      var rest, last := s[..|s| - 1], s[|s| - 1];
      assert s == rest + [last];
      assert last in multiset(t);
      var k :| 0 <= k < |t| && t[k] == last;
      var a, b := t[..k], t[k + 1..];
      assert t == a + [last] + b;
      WithoutOne(rest, last, a, b);
      TotalIgnoresOrder(weight, rest, a + b);
      TotalSnoc(weight, s);
      TotalWithout(weight, a, last, b);
    }
  }

  /** The balance of some events is the total of what each adds. */
  lemma {:induction false} BalanceIsTotal(events: seq<Event>)
    ensures ComputeBalance(events) == Total(Weight, events)
  {
    if events != [] {
      BalanceIsTotal(events[..|events| - 1]);
      TotalSnoc(Weight, events);
    }
  }

  /** The fees that some events pay to an address are the total of what each pays. */
  lemma {:induction false} FeesAreTotal(events: seq<Event>, feeAddress: string)
    ensures ComputeFeeBalance(events, feeAddress) == Total(FeesTo(feeAddress), events)
  {
    if events != [] {
      FeesAreTotal(events[..|events| - 1], feeAddress);
      TotalSnoc(FeesTo(feeAddress), events);
    }
  }

  predicate IsOwnFee(e: Event, feeAddress: string) {
    e.feeAddress == None || e.feeAddress == Some("") || e.feeAddress == Some(feeAddress)
  }

  lemma WeightOfOne(e: Event, feeAddress: string)
    ensures Weight(e) == (if e.name == PAYMENT then e.amount else if e.name == REFUND then -e.amount else 0)
    ensures FeeWeight(e, feeAddress) == (if e.feeAmount.Some? && IsOwnFee(e, feeAddress) then e.feeAmount.value else 0)
  {
  }

  /**
   One event more, anywhere among others. A payment adds its amount to the balance and a
   refund takes it back. A fee counts iff it went to the address, to none or to an empty one.
   */
  lemma OneEventMore(a: seq<Event>, e: Event, b: seq<Event>, feeAddress: string)
    ensures ComputeBalance(a + [e] + b)
         == ComputeBalance(a + b) + (if e.name == PAYMENT then e.amount else if e.name == REFUND then -e.amount else 0)
    ensures ComputeFeeBalance(a + [e] + b, feeAddress)
         == ComputeFeeBalance(a + b, feeAddress) + (if e.feeAmount.Some? && IsOwnFee(e, feeAddress) then e.feeAmount.value else 0)
  {
    hide Weight, FeeWeight, IsOwnFee, ComputeBalance, ComputeFeeBalance, Total;
    WeightOfOne(e, feeAddress);
    BalanceIsTotal(a + [e] + b);
    BalanceIsTotal(a + b);
    FeesAreTotal(a + [e] + b, feeAddress);
    FeesAreTotal(a + b, feeAddress);
    TotalWithout(Weight, a, e, b);
    TotalWithout(FeesTo(feeAddress), a, e, b);
  }

  /** The order of the events matters neither to the balance nor to the fees. */
  lemma BalanceIgnoresOrder(s: seq<Event>, t: seq<Event>)
    requires multiset(s) == multiset(t)
    ensures ComputeBalance(s) == ComputeBalance(t)
    ensures forall feeAddress :: ComputeFeeBalance(s, feeAddress) == ComputeFeeBalance(t, feeAddress)
  {
    BalanceIsTotal(s);
    BalanceIsTotal(t);
    TotalIgnoresOrder(Weight, s, t);
    forall feeAddress ensures ComputeFeeBalance(s, feeAddress) == ComputeFeeBalance(t, feeAddress) {
      FeesAreTotal(s, feeAddress);
      FeesAreTotal(t, feeAddress);
      TotalIgnoresOrder(FeesTo(feeAddress), s, t);
    }
  }

  lemma BalanceConcat(a: seq<Event>, b: seq<Event>)
    ensures ComputeBalance(a + b) == ComputeBalance(a) + ComputeBalance(b)
  {
    BalanceIsTotal(a);
    BalanceIsTotal(b);
    BalanceIsTotal(a + b);
    TotalConcat(Weight, a, b);
  }

  // ---------- the sort ----------

  predicate SortedEvents(s: seq<Event>) {
    forall i, j :: 0 <= i < j < |s| ==> s[i].timestamp <= s[j].timestamp
  }

  /** The events of one time, in order. */
  function AtTime(s: seq<Event>, timestamp: int): seq<Event> {
    if s == [] then []
    else
      var rest, last := AtTime(s[..|s| - 1], timestamp), s[|s| - 1];
      if last.timestamp == timestamp then rest + [last] else rest
  }

  lemma AtTimeSnoc(s: seq<Event>, e: Event, timestamp: int)
    ensures AtTime(s + [e], timestamp) == AtTime(s, timestamp) + (if e.timestamp == timestamp then [e] else [])
  {
    assert (s + [e])[..|s|] == s;
  }

  lemma {:induction false} AtTimeConcat(a: seq<Event>, b: seq<Event>, timestamp: int)
    ensures AtTime(a + b, timestamp) == AtTime(a, timestamp) + AtTime(b, timestamp)
  {
    if b == [] {
      assert a + b == a;
    } else {
      assert (a + b)[..|a + b| - 1] == a + b[..|b| - 1];
      AtTimeConcat(a, b[..|b| - 1], timestamp);
    }
  }

  lemma {:induction false} InsertAdds(s: seq<Event>, e: Event)
    ensures multiset(InsertEvent(s, e)) == multiset(s) + multiset{e}
  {
    if s != [] && s[|s| - 1].timestamp > e.timestamp {
      InsertAdds(s[..|s| - 1], e);
      SplitLast(s);
    }
  }

  lemma {:induction false} InsertSorts(s: seq<Event>, e: Event)
    requires SortedEvents(s)
    ensures SortedEvents(InsertEvent(s, e))
  {
    if s != [] && s[|s| - 1].timestamp > e.timestamp {
      var rest, last := s[..|s| - 1], s[|s| - 1];
      InsertSorts(rest, e);
      InsertAdds(rest, e);
      var inserted := InsertEvent(rest, e);
      forall i | 0 <= i < |inserted| ensures inserted[i].timestamp <= last.timestamp {
        assert inserted[i] in multiset(inserted);
        assert inserted[i] in rest || inserted[i] == e;
      }
    }
  }

  lemma {:induction false} InsertIsStable(s: seq<Event>, e: Event, timestamp: int)
    ensures AtTime(InsertEvent(s, e), timestamp) == AtTime(s + [e], timestamp)
  {
    AtTimeSnoc(s, e, timestamp);
    if s != [] && s[|s| - 1].timestamp > e.timestamp {
      var rest, last := s[..|s| - 1], s[|s| - 1];
      InsertIsStable(rest, e, timestamp);
      AtTimeSnoc(InsertEvent(rest, e), last, timestamp);
      AtTimeSnoc(rest, e, timestamp);
    }
  }

  /** The sort orders the events by time, loses and adds none, and keeps the order of those of one time. */
  lemma {:induction false} SortIsStable(s: seq<Event>)
    ensures SortedEvents(SortEvents(s)) && multiset(SortEvents(s)) == multiset(s)
    ensures forall timestamp :: AtTime(SortEvents(s), timestamp) == AtTime(s, timestamp)
  {
    if s != [] {
      var rest, last := s[..|s| - 1], s[|s| - 1];
      SortIsStable(rest);
      InsertSorts(SortEvents(rest), last);
      InsertAdds(SortEvents(rest), last);
      SplitLast(s);
      forall timestamp ensures AtTime(SortEvents(s), timestamp) == AtTime(s, timestamp) {
        InsertIsStable(SortEvents(rest), last, timestamp);
        AtTimeSnoc(SortEvents(rest), last, timestamp);
      }
    }
  }

  /** So a balance and the fees of sorted events are those of the events as reported. */
  lemma SortKeepsTotals(s: seq<Event>)
    ensures ComputeBalance(SortEvents(s)) == ComputeBalance(s)
    ensures forall feeAddress :: ComputeFeeBalance(SortEvents(s), feeAddress) == Total(FeesTo(feeAddress), s)
  {
    SortIsStable(s);
    BalanceIgnoresOrder(SortEvents(s), s);
    forall feeAddress ensures ComputeFeeBalance(SortEvents(s), feeAddress) == Total(FeesTo(feeAddress), s) {
      FeesAreTotal(s, feeAddress);
    }
  }
}
