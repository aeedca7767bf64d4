/** What the aggregation of balances guarantees. */
module MetaDetectorLaws {
  import opened Wrappers
  import opened MetaDetector
  import opened EventTotals

  // ---------- the meta balance is a homomorphism ----------

  function SumBalances(balances: seq<Option<int>>): int {
    if balances == [] then 0
    else
      var last := balances[|balances| - 1];
      SumBalances(balances[..|balances| - 1]) + if last.Some? then last.value else 0
  }

  lemma SumBalancesSnoc(balances: seq<Option<int>>, b: Option<int>)
    ensures SumBalances(balances + [b]) == SumBalances(balances) + if b.Some? then b.value else 0
  {
    assert (balances + [b])[..|balances|] == balances;
  }

  /** The balance of a sub payment network is that of its events; an error has neither. */
  lemma SubBalanceIsOfItsEvents(source: Source, s: Sub)
    ensures match SubBalance(source, s)
      case Err(_) => true
      case Ok((balance, after)) =>
        && ComputeBalance(balance.events) == (if balance.balance.Some? then balance.balance.value else 0)
        && after.key == s.key && after.network == s.network && after.feeAddress == s.feeAddress
  {
  }

  lemma {:induction false} GatheredBalances(source: Source, values: seq<Value>)
    requires VisitAll(source, values).0.Ok?
    ensures var g := VisitAll(source, values).0.value; ComputeBalance(g.events) == SumBalances(g.balances)
  {
    if values != [] {
      var rest, last := values[..|values| - 1], values[|values| - 1];
      GatheredBalances(source, rest);
      var g := VisitAll(source, rest).0.value;
      if last.SubValue? {
        SubBalanceIsOfItsEvents(source, last.sub);
        var balance := SubBalance(source, last.sub).value.0;
        BalanceConcat(g.events, balance.events);
        SumBalancesSnoc(g.balances, balance.balance);
      }
    }
  }

  /**
   When no sub payment network throws, the meta balance is the declared balance plus
   the sum of the sub-balances, errored ones counting zero.
   */
  lemma MetaBalanceIsTheSum(source: Source, declared: seq<Event>, values: seq<Value>)
    requires VisitAll(source, values).0.Ok?
    ensures MetaBalance(source, declared, values).0.balance
         == Some(ComputeBalance(declared) + SumBalances(VisitAll(source, values).0.value.balances))
  {
    var g := VisitAll(source, values).0.value;
    GatheredBalances(source, values);
    BalanceConcat(declared, g.events);
    SortKeepsTotals(declared + g.events);
  }

  /** Two sources that report the same events, in any order. */
  ghost predicate SameEvents(a: Source, b: Source) {
    a.configured == b.configured && forall key: string :: SameReport(a.events(key), b.events(key))
  }

  ghost predicate SameReport(a: Result<seq<Event>, string>, b: Result<seq<Event>, string>) {
    a.Ok? == b.Ok? && (a.Ok? ==> multiset(a.value) == multiset(b.value))
  }

  lemma SameSubBalance(a: Source, b: Source, s: Sub)
    requires SameEvents(a, b)
    ensures SubBalance(a, s).Ok? == SubBalance(b, s).Ok?
    ensures SubBalance(a, s).Ok? ==> SubBalance(a, s).value.0.balance == SubBalance(b, s).value.0.balance
  {
    hide SortEvents, ComputeBalance, ComputeFeeBalance, Total;
    assert SameReport(a.events(s.key), b.events(s.key));
    if a.events(s.key).Ok? {
      SortKeepsTotals(a.events(s.key).value);
      SortKeepsTotals(b.events(s.key).value);
      BalanceIgnoresOrder(a.events(s.key).value, b.events(s.key).value);
    }
  }

  lemma {:induction false} SameBalances(a: Source, b: Source, values: seq<Value>)
    requires SameEvents(a, b)
    ensures VisitAll(a, values).0.Ok? == VisitAll(b, values).0.Ok?
    ensures VisitAll(a, values).0.Ok? ==> VisitAll(a, values).0.value.balances == VisitAll(b, values).0.value.balances
  {
    if values != [] {
      hide SubBalance, SameEvents;
      SameBalances(a, b, values[..|values| - 1]);
      var last := values[|values| - 1];
      if last.SubValue? {
        SameSubBalance(a, b, last.sub);
      }
    }
  }

  /** The order in which events are reported never matters to the meta balance, nor to whether it is an error. */
  lemma MetaBalanceIgnoresOrder(a: Source, b: Source, declared: seq<Event>, shuffled: seq<Event>, values: seq<Value>)
    requires SameEvents(a, b) && multiset(declared) == multiset(shuffled)
    ensures MetaBalance(a, declared, values).0.balance == MetaBalance(b, shuffled, values).0.balance
  {
    hide ComputeBalance, SortEvents, VisitAll;
    SameBalances(a, b, values);
    if VisitAll(a, values).0.Ok? {
      MetaBalanceIsTheSum(a, declared, values);
      MetaBalanceIsTheSum(b, shuffled, values);
      BalanceIgnoresOrder(declared, shuffled);
    }
  }

  // ---------- when it throws, and what it leaves ----------

  /** Why visiting a property throws, if it does. */
  function WhyThrows(source: Source, v: Value): Option<string> {
    if !v.SubValue? then None
    else if v.sub.network !in source.configured then Some("is not supported for meta-pn detection")
    else if v.sub.network != ANY_DECLARATIVE && source.events(v.sub.key).Ok? && (v.sub.feeAddress == None || v.sub.feeAddress == Some("")) then
      Some("misses required value feeAddress")
    else None
  }

  ghost predicate NoneThrows(source: Source, values: seq<Value>) {
    forall i :: 0 <= i < |values| ==> WhyThrows(source, values[i]) == None
  }

  /** Events that can be read from the property. */
  function Readable(source: Source, v: Value): seq<Event> {
    if v.SubValue? && source.events(v.sub.key).Ok? then source.events(v.sub.key).value else []
  }

  /** A visited property: a proxy whose events can be read has its fees written, and nothing else changes. */
  ghost predicate IsVisited(source: Source, v: Value, after: Value) {
    if v.SubValue? && v.sub.network != ANY_DECLARATIVE && source.events(v.sub.key).Ok? then
      && after.SubValue? && after.sub.feeBalance.Some? && after == SubValue(v.sub.(feeBalance := after.sub.feeBalance))
      && v.sub.feeAddress.Some?
      && after.sub.feeBalance.value.balance == Total(FeesTo(v.sub.feeAddress.value), source.events(v.sub.key).value)
      && after.sub.feeBalance.value.events == SortEvents(source.events(v.sub.key).value)
    else after == v
  }

  /** The events that the sub payment networks report, in order. */
  function ReportedEvents(source: Source, values: seq<Value>): seq<Event> {
    if values == [] then []
    else ReportedEvents(source, values[..|values| - 1]) + Readable(source, values[|values| - 1])
  }

  /** The fee that a property holds, if any. */
  function FeeOf(v: Value): seq<Fee> {
    if v.SubValue? && v.sub.feeBalance.Some? then [v.sub.feeBalance.value] else []
  }

  /** The fees that the properties hold. */
  function FeesIn(values: seq<Value>): seq<Fee> {
    if values == [] then [] else FeesIn(values[..|values| - 1]) + FeeOf(values[|values| - 1])
  }

  /** The events and the balance of the fees that the properties hold, together. */
  function EventsHeld(values: seq<Value>): seq<Event> {
    if values == [] then [] else EventsHeld(values[..|values| - 1]) + EventsHeldBy(values[|values| - 1])
  }

  function EventsHeldBy(v: Value): seq<Event> {
    if v.SubValue? && v.sub.feeBalance.Some? then v.sub.feeBalance.value.events else []
  }

  function BalancesHeld(values: seq<Value>): int {
    if values == [] then 0 else BalancesHeld(values[..|values| - 1]) + BalanceHeldBy(values[|values| - 1])
  }

  function BalanceHeldBy(v: Value): int {
    if v.SubValue? && v.sub.feeBalance.Some? then v.sub.feeBalance.value.balance else 0
  }

  lemma OneMoreFee(fees: seq<Fee>, v: Value)
    ensures FeeEvents(fees + FeeOf(v)) == FeeEvents(fees) + EventsHeldBy(v)
    ensures SumFees(fees + FeeOf(v)) == SumFees(fees) + BalanceHeldBy(v)
  {
    if FeeOf(v) == [] {
      assert fees + [] == fees && FeeEvents(fees) + [] == FeeEvents(fees);
    } else {
      assert (fees + FeeOf(v))[..|fees|] == fees;
    }
  }

  lemma {:induction false} HeldAre(values: seq<Value>)
    ensures FeeEvents(FeesIn(values)) == EventsHeld(values) && SumFees(FeesIn(values)) == BalancesHeld(values)
  {
    if values != [] {
      hide FeeEvents, SumFees, FeeOf, EventsHeldBy, BalanceHeldBy;
      HeldAre(values[..|values| - 1]);
      OneMoreFee(FeesIn(values[..|values| - 1]), values[|values| - 1]);
    }
  }

  /** The two lists have the same events of each time, in the same order. */
  ghost predicate SameAtAllTimes(a: seq<Event>, b: seq<Event>) {
    forall timestamp :: AtTime(a, timestamp) == AtTime(b, timestamp)
  }

  lemma VisitIs(source: Source, v: Value, g: Gathered)
    ensures var (r, after) := Visit(source, v, g);
      match WhyThrows(source, v)
      case Some(error) => r == Err(error) && after == v
      case None =>
        && IsVisited(source, v, after) && r.Ok?
        && r.value.events == g.events + SortEvents(Readable(source, v))
        && r.value.fees == g.fees + FeeOf(after)
  {
    hide SortEvents, ComputeBalance, ComputeFeeBalance, Total;
    SortNothing();
    assert g.events + [] == g.events && g.fees + [] == g.fees;
    if v.SubValue? && source.events(v.sub.key).Ok? {
      SortKeepsTotals(source.events(v.sub.key).value);
    }
  }

  lemma SortNothing()
    ensures SortEvents([]) == []
  {
  }

  lemma Stable(s: seq<Event>)
    ensures SortedEvents(SortEvents(s)) && SameAtAllTimes(SortEvents(s), s) && multiset(SortEvents(s)) == multiset(s)
  {
    SortIsStable(s);
  }

  lemma SameAtAllTimesConcat(a: seq<Event>, b: seq<Event>, x: seq<Event>, y: seq<Event>)
    requires SameAtAllTimes(a, b) && SameAtAllTimes(x, y) && multiset(a) == multiset(b) && multiset(x) == multiset(y)
    ensures SameAtAllTimes(a + x, b + y) && multiset(a + x) == multiset(b + y)
  {
    forall timestamp ensures AtTime(a + x, timestamp) == AtTime(b + y, timestamp) {
      AtTimeConcat(a, x, timestamp);
      AtTimeConcat(b, y, timestamp);
    }
  }

  /** What a visit without a throw gives. */
  ghost predicate Gathers(source: Source, values: seq<Value>, g: Gathered, visited: seq<Value>) {
    && |visited| == |values|
    && (forall i :: 0 <= i < |values| ==> IsVisited(source, values[i], visited[i]))
    && g.fees == FeesIn(visited)
    && SameAtAllTimes(g.events, ReportedEvents(source, values))
    && multiset(g.events) == multiset(ReportedEvents(source, values))
  }

  lemma GathersOneMore(source: Source, values: seq<Value>, g: Gathered, visited: seq<Value>)
    requires values != [] && Gathers(source, values[..|values| - 1], g, visited)
    requires WhyThrows(source, values[|values| - 1]) == None
    ensures var (r, after) := Visit(source, values[|values| - 1], g);
      r.Ok? && Gathers(source, values, r.value, visited + [after])
  {
    hide Visit, IsVisited, WhyThrows, SameAtAllTimes, SortEvents, Readable, FeesIn, FeeOf, ReportedEvents;
    var last := values[|values| - 1];
    VisitIs(source, last, g);
    FeesInSnoc(visited, Visit(source, last, g).1);
    ReportsOneMore(source, values, g);
  }

  lemma FeesInSnoc(values: seq<Value>, v: Value)
    ensures FeesIn(values + [v]) == FeesIn(values) + FeeOf(v)
  {
    assert (values + [v])[..|values|] == values;
  }

  lemma ReportsOneMore(source: Source, values: seq<Value>, g: Gathered)
    requires values != [] && SameAtAllTimes(g.events, ReportedEvents(source, values[..|values| - 1]))
    requires multiset(g.events) == multiset(ReportedEvents(source, values[..|values| - 1]))
    ensures var events := g.events + SortEvents(Readable(source, values[|values| - 1]));
      && SameAtAllTimes(events, ReportedEvents(source, values))
      && multiset(events) == multiset(ReportedEvents(source, values))
  {
    hide SameAtAllTimes, SortEvents, Readable;
    var rest, last := values[..|values| - 1], values[|values| - 1];
    Stable(Readable(source, last));
    SameAtAllTimesConcat(g.events, ReportedEvents(source, rest), SortEvents(Readable(source, last)), Readable(source, last));
  }

  lemma NoneThrowsSnoc(source: Source, values: seq<Value>)
    requires values != []
    ensures NoneThrows(source, values) <==> NoneThrows(source, values[..|values| - 1]) && WhyThrows(source, values[|values| - 1]) == None
  {
    hide WhyThrows;
    assert forall i :: 0 <= i < |values| - 1 ==> values[..|values| - 1][i] == values[i];
  }

  lemma {:induction false} VisitedOnes(source: Source, values: seq<Value>)
    ensures var (r, visited) := VisitAll(source, values);
      && |visited| == |values|
      && (r.Ok? <==> NoneThrows(source, values))
      && (r.Ok? ==> Gathers(source, values, r.value, visited))
  {
    if values != [] {
      hide Visit, WhyThrows, NoneThrows, Gathers;
      var rest, last := values[..|values| - 1], values[|values| - 1];
      VisitedOnes(source, rest);
      NoneThrowsSnoc(source, values);
      var (before, visited) := VisitAll(source, rest);
      if before.Ok? {
        VisitIs(source, last, before.value);
        if WhyThrows(source, last) == None {
          GathersOneMore(source, values, before.value, visited);
        }
      }
    }
  }

  /**
   When a call throws: iff some sub payment network has no extension configured, or is
   a proxy whose events can be read and whose fee address is missing or empty. The first
   such one gives the error, and neither it nor any property after it is written.
   */
  lemma MetaBalanceFailsIff(source: Source, declared: seq<Event>, values: seq<Value>)
    ensures var (balance, after) := MetaBalance(source, declared, values);
      && (balance.error == None <==> NoneThrows(source, values))
      && (forall i :: 0 <= i < |values| && NoneThrows(source, values[..i]) && WhyThrows(source, values[i]).Some? ==>
            balance == Balance(None, [], WhyThrows(source, values[i])) && |after| == |values| && after[i..] == values[i..])
  {
    hide VisitAll, Visit, WhyThrows, NoneThrows;
    VisitedOnes(source, values);
    forall i | 0 <= i < |values| && NoneThrows(source, values[..i]) && WhyThrows(source, values[i]).Some?
      ensures MetaBalance(source, declared, values).0 == Balance(None, [], WhyThrows(source, values[i]))
      ensures |MetaBalance(source, declared, values).1| == |values| && MetaBalance(source, declared, values).1[i..] == values[i..]
    {
      VisitedOnes(source, values[..i]);
      VisitIs(source, values[i], VisitAll(source, values[..i]).0.value);
      ThrowStopsVisit(source, values, i);
    }
  }

  /**
   What a call that does not throw reports and leaves. The events are the declared ones
   and all that could be read, in stable order of time. Each proxy that could be read has
   its own fees, other properties are as they were, and the fee total, in its old place
   or at the end, holds the events and the sum of the fees found in the properties.
   */
  lemma MetaBalanceReports(source: Source, declared: seq<Event>, values: seq<Value>)
    requires NoneThrows(source, values)
    ensures var (balance, after) := MetaBalance(source, declared, values);
      var i := FeeIndex(values);
      && balance.balance == Some(Total(Weight, declared + ReportedEvents(source, values)))
      && SortedEvents(balance.events)
      && multiset(balance.events) == multiset(declared + ReportedEvents(source, values))
      && SameAtAllTimes(balance.events, declared + ReportedEvents(source, values))
      && |after| == (if i < |values| then |values| else |values| + 1)
      && (forall k :: 0 <= k < |values| && k != i ==> IsVisited(source, values[k], after[k]))
      && after[i] == FeeTotal(Fee(EventsHeld(after), BalancesHeld(after)))
  {
    hide VisitAll, SortEvents, ComputeBalance, FeeEvents, SumFees, FeesIn, FeeIndex, WhyThrows;
    VisitedOnes(source, values);
    var (r, visited) := VisitAll(source, values);
    var all := declared + r.value.events;
    Stable(all);
    SortKeepsTotals(all);
    BalanceIgnoresOrder(all, declared + ReportedEvents(source, values));
    BalanceIsTotal(declared + ReportedEvents(source, values));
    SameAtAllTimesConcat(declared, declared, r.value.events, ReportedEvents(source, values));
    FeeIndexOfVisited(source, values, visited);
    FeesBesideTotal(visited, Fee(FeeEvents(r.value.fees), SumFees(r.value.fees)));
    HeldAre(MetaBalance(source, declared, values).1);
  }

  lemma {:induction false} FeeIndexOfVisited(source: Source, values: seq<Value>, visited: seq<Value>)
    requires |values| == |visited| && forall i :: 0 <= i < |values| ==> IsVisited(source, values[i], visited[i])
    ensures FeeIndex(values) == FeeIndex(visited)
  {
    if values != [] {
      assert IsVisited(source, values[0], visited[0]);
      if !values[0].FeeTotal? {
        FeeIndexOfVisited(source, values[1..], visited[1..]);
      }
    }
  }

  lemma {:induction false} FeesOfConcat(a: seq<Value>, b: seq<Value>)
    ensures FeesIn(a + b) == FeesIn(a) + FeesIn(b)
  {
    if b == [] {
      assert a + b == a;
    } else {
      assert (a + b)[..|a + b| - 1] == a + b[..|b| - 1];
      FeesOfConcat(a, b[..|b| - 1]);
    }
  }

  lemma FeesBesideTotal(values: seq<Value>, fee: Fee)
    ensures FeesIn(PutFeeTotal(values, fee)) == FeesIn(values)
  {
    hide FeeIndex;
    var i := FeeIndex(values);
    var one := [FeeTotal(fee)];
    assert one[..0] == [] && FeesIn(one) == [];
    if i < |values| {
      var found := [values[i]];
      assert found[..0] == [] && FeesIn(found) == [];
      assert values == values[..i] + found + values[i + 1..];
      assert PutFeeTotal(values, fee) == values[..i] + one + values[i + 1..];
      FeesOfConcat(values[..i] + found, values[i + 1..]);
      FeesOfConcat(values[..i] + one, values[i + 1..]);
      FeesOfConcat(values[..i], found);
      FeesOfConcat(values[..i], one);
    } else {
      FeesOfConcat(values, one);
    }
  }

  // ---------- calling again ----------

  lemma SubBalanceAgain(source: Source, s: Sub)
    ensures match SubBalance(source, s)
      case Err(_) => true
      case Ok((balance, after)) => SubBalance(source, after) == Ok((balance, after))
  {
  }

  lemma VisitAgain(source: Source, v: Value, g: Gathered)
    ensures var (r, after) := Visit(source, v, g); Visit(source, after, g) == (r, after)
  {
    if v.SubValue? {
      SubBalanceAgain(source, v.sub);
    }
  }

  lemma {:induction false} VisitAllAgain(source: Source, values: seq<Value>)
    ensures var (r, visited) := VisitAll(source, values);
      && |visited| == |values|
      && VisitAll(source, visited) == (r, visited)
  {
    if values != [] {
      hide Visit;
      var n := |values| - 1;
      VisitAllAgain(source, values[..n]);
      var (before, visited) := VisitAll(source, values[..n]);
      var all := VisitAll(source, values).1;
      assert all[..n] == visited;
      if before.Ok? {
        VisitAgain(source, values[n], before.value);
      }
    }
  }

  /** Properties that are not sub payment networks leave no trace in what is gathered. */
  lemma VisitPlain(source: Source, v: Value, g: Gathered)
    requires !v.SubValue?
    ensures Visit(source, v, g) == (Ok(g), v)
  {
  }

  /** Visiting a list is visiting all but the last property, then the last unless something threw. */
  lemma VisitLast(source: Source, values: seq<Value>)
    requires values != []
    ensures var (before, visited) := VisitAll(source, values[..|values| - 1]);
      VisitAll(source, values) ==
        if before.Err? then (before, visited + [values[|values| - 1]])
        else
          var (r, after) := Visit(source, values[|values| - 1], before.value);
          (r, visited + [after])
  {
    hide Visit;
  }

  lemma {:induction false} VisitWithFee(source: Source, values: seq<Value>, i: nat, fee: Fee)
    requires i < |values| && values[i].FeeTotal? && VisitAll(source, values).1 == values
    ensures VisitAll(source, values[i := FeeTotal(fee)]) == (VisitAll(source, values).0, values[i := FeeTotal(fee)])
  {
    hide Visit, VisitAll;
    var n := |values| - 1;
    var changed := values[i := FeeTotal(fee)];
    VisitLast(source, values);
    VisitLast(source, changed);
    VisitLength(source, values);
    if i == n {
      assert changed[..n] == values[..n] && changed == changed[..n] + [changed[n]];
      var before := VisitAll(source, values[..n]).0;
      if before.Ok? {
        VisitPlain(source, values[n], before.value);
        VisitPlain(source, changed[n], before.value);
      }
    } else {
      assert changed[..n] == values[..n][i := FeeTotal(fee)];
      VisitWithFee(source, values[..n], i, fee);
      assert changed == changed[..n] + [values[n]];
      assert values == values[..n] + [values[n]];
    }
  }

  lemma {:induction false} VisitLength(source: Source, values: seq<Value>)
    ensures |VisitAll(source, values).1| == |values|
    ensures values != [] ==> VisitAll(source, values).1[..|values| - 1] == VisitAll(source, values[..|values| - 1]).1
  {
    if values != [] {
      VisitLength(source, values[..|values| - 1]);
    }
  }

  lemma {:induction false} FeeIndexStays(values: seq<Value>, fee: Fee)
    ensures var after := PutFeeTotal(values, fee); FeeIndex(after) == FeeIndex(values) < |after|
  {
    if values == [] {
      assert PutFeeTotal(values, fee) == [FeeTotal(fee)];
    } else if !values[0].FeeTotal? {
      FeeIndexStays(values[1..], fee);
      assert PutFeeTotal(values, fee)[1..] == PutFeeTotal(values[1..], fee);
    }
  }

  /**
   Calling again with unchanged sources gives the same balance and leaves the values
   as they are, the fee total included, although each call writes the fee balances
   into the values it iterates and the fee total beside them.
   */
  lemma MetaBalanceIsRepeatable(source: Source, declared: seq<Event>, values: seq<Value>)
    ensures var (balance, after) := MetaBalance(source, declared, values);
      MetaBalance(source, declared, after) == (balance, after)
  {
    hide VisitAll;
    VisitAllAgain(source, values);
    var (r, visited) := VisitAll(source, values);
    if r.Ok? {
      var fee := Fee(FeeEvents(r.value.fees), SumFees(r.value.fees));
      var after := PutFeeTotal(visited, fee);
      FeeIndexStays(visited, fee);
      var i := FeeIndex(visited);
      assert FeeIndex(after) == i;
      if i < |visited| {
        VisitWithFee(source, visited, i, fee);
      } else {
        VisitAppended(source, visited, fee);
      }
      assert VisitAll(source, after) == (r, after);
      assert PutFeeTotal(after, fee) == after by {
        assert after[i] == FeeTotal(fee);
        assert after[i := FeeTotal(fee)] == after;
      }
    }
  }

  lemma VisitAppended(source: Source, values: seq<Value>, fee: Fee)
    requires VisitAll(source, values).0.Ok? && VisitAll(source, values).1 == values
    ensures VisitAll(source, values + [FeeTotal(fee)]) == (VisitAll(source, values).0, values + [FeeTotal(fee)])
  {
    assert (values + [FeeTotal(fee)])[..|values|] == values;
  }

  // ---------- the fee total ----------

  /** The fees computed by this call: those of the proxies whose events could be read. */
  function FreshFees(source: Source, values: seq<Value>): int {
    if values == [] then 0
    else FreshFees(source, values[..|values| - 1]) + FreshFee(source, values[|values| - 1])
  }

  function FreshFee(source: Source, v: Value): int {
    if v.SubValue? && v.sub.network != ANY_DECLARATIVE && v.sub.feeAddress.Some? && source.events(v.sub.key).Ok?
    then Total(FeesTo(v.sub.feeAddress.value), source.events(v.sub.key).value) else 0
  }

  /** The fees left by an earlier call in networks that write none in this one. */
  function StaleFees(source: Source, values: seq<Value>): int {
    if values == [] then 0
    else StaleFees(source, values[..|values| - 1]) + StaleFee(source, values[|values| - 1])
  }

  function StaleFee(source: Source, v: Value): int {
    if v.SubValue? && (v.sub.network == ANY_DECLARATIVE || source.events(v.sub.key).Err?) && v.sub.feeBalance.Some?
    then v.sub.feeBalance.value.balance else 0
  }

  lemma SumFeesSnoc(fees: seq<Fee>, fee: Fee)
    ensures SumFees(fees + [fee]) == SumFees(fees) + fee.balance
  {
    assert (fees + [fee])[..|fees|] == fees;
  }

  /** Visiting one property adds its fee: the one computed now, or the one an earlier call left. */
  lemma VisitAddsOneFee(source: Source, v: Value, g: Gathered)
    requires Visit(source, v, g).0.Ok?
    ensures SumFees(Visit(source, v, g).0.value.fees) == SumFees(g.fees) + FreshFee(source, v) + StaleFee(source, v)
  {
    hide SortEvents, ComputeBalance, ComputeFeeBalance, SumFees, Total;
    if v.SubValue? {
      if source.events(v.sub.key).Ok? {
        SortKeepsTotals(source.events(v.sub.key).value);
      }
      var after := SubBalance(source, v.sub).value.1;
      if after.feeBalance.Some? {
        SumFeesSnoc(g.fees, after.feeBalance.value);
      }
    }
  }

  lemma {:induction false} GatheredFees(source: Source, values: seq<Value>)
    requires VisitAll(source, values).0.Ok?
    ensures SumFees(VisitAll(source, values).0.value.fees) == FreshFees(source, values) + StaleFees(source, values)
  {
    hide Visit, SumFees, FreshFee, StaleFee;
    if values == [] {
      NoFees();
    } else {
      var rest, last := values[..|values| - 1], values[|values| - 1];
      GatheredFees(source, rest);
      VisitAddsOneFee(source, last, VisitAll(source, rest).0.value);
    }
  }

  lemma NoFees()
    ensures SumFees([]) == 0
  {
  }

  /** The fee total written in the values, if there is one. */
  function FeeTotalIn(values: seq<Value>): Option<int> {
    var i := FeeIndex(values);
    if i < |values| then Some(values[i].fee.balance) else None
  }

  /**
   When the written fee total is right. A call that does not throw writes the fees of
   this call plus whatever an earlier call left in a network that writes none now. So
   the total is that of the current fees iff those leftovers sum to zero.
   */
  lemma FeeTotalCountsStaleFees(source: Source, declared: seq<Event>, values: seq<Value>)
    requires VisitAll(source, values).0.Ok?
    ensures var total := FeeTotalIn(MetaBalance(source, declared, values).1);
      && total == Some(FreshFees(source, values) + StaleFees(source, values))
      && (total == Some(FreshFees(source, values)) <==> StaleFees(source, values) == 0)
  {
    hide VisitAll, SortEvents, ComputeBalance;
    var (r, visited) := VisitAll(source, values);
    GatheredFees(source, values);
    var fee := Fee(FeeEvents(r.value.fees), SumFees(r.value.fees));
    FeeIndexStays(visited, fee);
    assert PutFeeTotal(visited, fee)[FeeIndex(visited)] == FeeTotal(fee);
  }

  /** One sub payment network that collects fees. */
  function Proxy(key: string, feeAddress: string, feeBalance: Option<Fee>): Value {
    SubValue(Sub(key, ANY_TO_ETH_PROXY, Some(feeAddress), feeBalance))
  }

  lemma VisitTwo(source: Source, a: Value, b: Value)
    ensures VisitAll(source, [a]) == (var (r, after) := Visit(source, a, Gathered([], [], [])); (r, [after]))
    ensures VisitAll(source, [a]).0.Ok? ==>
      VisitAll(source, [a, b]) ==
        (var (r, after) := Visit(source, b, VisitAll(source, [a]).0.value); (r, VisitAll(source, [a]).1 + [after]))
  {
    hide Visit;
    assert [a][..0] == [] && [a, b][..1] == [a];
    assert [a, b][1] == b && [] + [Visit(source, a, Gathered([], [], [])).1] == [Visit(source, a, Gathered([], [], [])).1];
  }

  /** The values after the first call: the proxy with its fee, and the fee total. */
  lemma FirstCall(key: string, feeAddress: string, events: seq<Event>, configured: set<PaymentNetwork>, declared: seq<Event>)
    requires feeAddress != "" && ANY_TO_ETH_PROXY in configured
    ensures var source := Source(configured, (_: string) => Ok(events));
      var fee := Fee(SortEvents(events), ComputeFeeBalance(SortEvents(events), feeAddress));
      exists total :: MetaBalance(source, declared, [Proxy(key, feeAddress, None)]).1
        == [Proxy(key, feeAddress, Some(fee)), FeeTotal(total)]
  {
    hide SortEvents, ComputeFeeBalance, ComputeBalance, FeeEvents, SumFees;
    var source := Source(configured, (_: string) => Ok(events));
    var fee := Fee(SortEvents(events), ComputeFeeBalance(SortEvents(events), feeAddress));
    var before, after := Proxy(key, feeAddress, None), Proxy(key, feeAddress, Some(fee));
    VisitTwo(source, before, before);
    assert VisitAll(source, [before]).1 == [after];
    var fees := VisitAll(source, [before]).0.value.fees;
    assert FeeIndex([after]) == 1;
    assert PutFeeTotal([after], Fee(FeeEvents(fees), SumFees(fees))) == [after, FeeTotal(Fee(FeeEvents(fees), SumFees(fees)))];
  }

  /**
   The failing family of runs: after one call that reads the events of a proxy, a
   second call in which they cannot be read still reports the fee of the first, with
   a balance that no longer counts its payments.
   */
  lemma StaleFeeIsReported(key: string, feeAddress: string, events: seq<Event>, configured: set<PaymentNetwork>,
                           declared: seq<Event>, error: string)
    requires feeAddress != "" && ANY_TO_ETH_PROXY in configured
    ensures var first := Source(configured, (_: string) => Ok(events));
      var second := Source(configured, (_: string) => Err(error));
      var between := MetaBalance(first, declared, [Proxy(key, feeAddress, None)]).1;
      var (balance, after) := MetaBalance(second, declared, between);
      && balance.balance == Some(ComputeBalance(declared))
      && FreshFees(second, between) == 0
      && FeeTotalIn(after) == Some(Total(FeesTo(feeAddress), events))
  {
    hide SortEvents, ComputeFeeBalance, ComputeBalance, FeeEvents, SumFees, MetaBalance, FeeTotalIn;
    var first := Source(configured, (_: string) => Ok(events));
    var second := Source(configured, (_: string) => Err(error));
    var between := MetaBalance(first, declared, [Proxy(key, feeAddress, None)]).1;
    FirstCall(key, feeAddress, events, configured, declared);
    SortKeepsTotals(events);
    var fee := Fee(SortEvents(events), ComputeFeeBalance(SortEvents(events), feeAddress));
    var total :| between == [Proxy(key, feeAddress, Some(fee)), FeeTotal(total)];
    SecondCall(second, Proxy(key, feeAddress, Some(fee)), total);
    MetaBalanceIsTheSum(second, declared, between);
    FeeTotalCountsStaleFees(second, declared, between);
  }

  lemma SecondCall(source: Source, proxy: Value, total: Fee)
    requires proxy.SubValue? && proxy.sub.network in source.configured && source.events(proxy.sub.key).Err?
    requires proxy.sub.feeBalance.Some?
    ensures var values := [proxy, FeeTotal(total)];
      && VisitAll(source, values).0.Ok?
      && SumBalances(VisitAll(source, values).0.value.balances) == 0
      && FreshFees(source, values) == 0
      && StaleFees(source, values) == proxy.sub.feeBalance.value.balance
  {
    var values := [proxy, FeeTotal(total)];
    VisitTwo(source, proxy, FeeTotal(total));
    assert values[..1] == [proxy] && [proxy][..0] == [];
    assert VisitAll(source, values).0.value.balances == [None];
    assert SumBalances([None]) == SumBalances([]);
    assert FreshFees(source, [proxy]) == FreshFees(source, []) + FreshFee(source, proxy);
    assert StaleFees(source, [proxy]) == StaleFees(source, []) + StaleFee(source, proxy);
  }
}
