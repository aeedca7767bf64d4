/**
 Balances aggregated over the sub payment networks of a request, and the fee total
 that is written back into the request.
 */
module MetaDetector {
  import opened Wrappers

  datatype EventName = PAYMENT | REFUND | OTHER_EVENT

  datatype Event = Event(name: EventName, amount: int, timestamp: int, feeAmount: Option<int>, feeAddress: Option<string>)

  /** The fees of a payment network: its events and their sum. */
  datatype Fee = Fee(events: seq<Event>, balance: int)

  /** The supported sub payment networks; the proxies compute fees, the declarative one does not. */
  datatype PaymentNetwork = ANY_DECLARATIVE | ANY_TO_ERC20_PROXY | ANY_TO_ETH_PROXY

  /** A balance with its events; with an error there is no balance and there are no events. */
  datatype Balance = Balance(balance: Option<int>, events: seq<Event>, error: Option<string>)

  /**
   What comes from outside: the payment networks that have an extension configured,
   and the events of a sub payment network, whose error is caught and becomes an
   error balance.
   */
  datatype Source = Source(configured: set<PaymentNetwork>, events: string -> Result<seq<Event>, string>)

  // ---------- events ----------

  function ComputeBalance(events: seq<Event>): int {
    if events == [] then 0
    else
      var last := events[|events| - 1];
      ComputeBalance(events[..|events| - 1])
        + match last.name
          case PAYMENT => last.amount
          case REFUND => -last.amount
          case OTHER_EVENT => 0
  }

  function ComputeFeeBalance(events: seq<Event>, feeAddress: string): int {
    if events == [] then 0
    else
      var last := events[|events| - 1];
      ComputeFeeBalance(events[..|events| - 1], feeAddress)
        + if last.feeAmount.Some? && (last.feeAddress.None? || last.feeAddress.value in ["", feeAddress])
          then last.feeAmount.value else 0
  }

  function InsertEvent(s: seq<Event>, e: Event): seq<Event> {
    if s != [] && s[|s| - 1].timestamp > e.timestamp then InsertEvent(s[..|s| - 1], e) + [s[|s| - 1]] else s + [e]
  }

  function SortEvents(s: seq<Event>): seq<Event> {
    if s == [] then [] else InsertEvent(SortEvents(s[..|s| - 1]), s[|s| - 1])
  }

  // ---------- states ----------

  /** A sub payment network inside the request, with the fee balance written into it. */
  datatype Sub = Sub(key: string, network: PaymentNetwork, feeAddress: Option<string>, feeBalance: Option<Fee>)

  /** A property of the values of the meta extension: a sub payment network, the fee total, or anything else. */
  datatype Value = SubValue(sub: Sub) | FeeTotal(fee: Fee) | OtherValue(text: string)

  /** What the properties visited so far contribute. */
  datatype Gathered = Gathered(events: seq<Event>, fees: seq<Fee>, balances: seq<Option<int>>)

  // ---------- one sub payment network ----------

  /** The balance of a sub payment network and the network after it; a missing fee address throws. */
  function SubBalance(source: Source, s: Sub): Result<(Balance, Sub), string> {
    match source.events(s.key)
    case Err(error) => Ok((Balance(None, [], Some(error)), s))
    case Ok(raw) =>
      var events := SortEvents(raw);
      var balance := Balance(Some(ComputeBalance(events)), events, None);
      if s.network == ANY_DECLARATIVE then Ok((balance, s))
      else if s.feeAddress.None? || s.feeAddress.value == "" then Err("misses required value feeAddress")
      else Ok((balance, s.(feeBalance := Some(Fee(events, ComputeFeeBalance(events, s.feeAddress.value))))))
  }

  /**
   Visits one property: only sub payment networks are detected, and a fee balance is
   collected whenever there is one. A network that is not configured throws.
   */
  function Visit(source: Source, v: Value, g: Gathered): (Result<Gathered, string>, Value) {
    if !v.SubValue? then (Ok(g), v)
    else if v.sub.network !in source.configured then (Err("is not supported for meta-pn detection"), v)
    else
      match SubBalance(source, v.sub)
      case Err(error) => (Err(error), v)
      case Ok((balance, after)) =>
        (Ok(Gathered(
           g.events + balance.events,
           if after.feeBalance.Some? then g.fees + [after.feeBalance.value] else g.fees,
           g.balances + [balance.balance])),
         SubValue(after))
  }

  /** Visits the properties in order; after one throws the others are not visited. */
  function VisitAll(source: Source, values: seq<Value>): (Result<Gathered, string>, seq<Value>) {
    if values == [] then (Ok(Gathered([], [], [])), [])
    else
      var (before, visited) := VisitAll(source, values[..|values| - 1]);
      match before
      case Err(error) => (Err(error), visited + [values[|values| - 1]])
      case Ok(g) =>
        var (r, after) := Visit(source, values[|values| - 1], g);
        (r, visited + [after])
  }

  // ---------- the whole ----------

  function SumFees(fees: seq<Fee>): int {
    if fees == [] then 0 else SumFees(fees[..|fees| - 1]) + fees[|fees| - 1].balance
  }

  function FeeEvents(fees: seq<Fee>): seq<Event> {
    if fees == [] then [] else FeeEvents(fees[..|fees| - 1]) + fees[|fees| - 1].events
  }

  /** The position of the fee total, or the end when there is none. */
  function FeeIndex(values: seq<Value>): (i: nat)
    ensures i <= |values| && (i < |values| ==> values[i].FeeTotal?)
  {
    if values == [] || values[0].FeeTotal? then 0 else 1 + FeeIndex(values[1..])
  }

  /** Sets the fee total, in place if there is one already. */
  function PutFeeTotal(values: seq<Value>, fee: Fee): seq<Value> {
    var i := FeeIndex(values);
    if i < |values| then values[i := FeeTotal(fee)] else values + [FeeTotal(fee)]
  }

  /** The balance of the request and the values of its meta extension after the call. */
  function MetaBalance(source: Source, declared: seq<Event>, values: seq<Value>): (Balance, seq<Value>) {
    var (r, visited) := VisitAll(source, values);
    match r
    case Err(error) => (Balance(None, [], Some(error)), visited)
    case Ok(g) =>
      var events := SortEvents(declared + g.events);
      (Balance(Some(ComputeBalance(events)), events, None), PutFeeTotal(visited, Fee(FeeEvents(g.fees), SumFees(g.fees))))
  }

  // ---------- the program's own form ----------

  class SubExtension {
    const key: string
    const network: PaymentNetwork
    const feeAddress: Option<string>
    var feeBalance: Option<Fee>

    constructor (s: Sub)
      ensures Get() == s
    {
      key, network, feeAddress, feeBalance := s.key, s.network, s.feeAddress, s.feeBalance;
    }

    function Get(): Sub
      reads this
    {
      Sub(key, network, feeAddress, feeBalance)
    }

    /** The detector of the network, which writes the fee balance into this very object. */
    method GetBalance(source: Source) returns (r: Result<Balance, string>)
      modifies this
      ensures match SubBalance(source, old(Get()))
        case Err(error) => r == Err(error) && Get() == old(Get())
        case Ok((balance, after)) => r == Ok(balance) && Get() == after
    {
      var raw := source.events(key);
      if raw.Err? {
        return Ok(Balance(None, [], Some(raw.error)));
      }
      var events := SortEvents(raw.value);
      var balance := Balance(Some(ComputeBalance(events)), events, None);
      if network != ANY_DECLARATIVE {
        if feeAddress.None? || feeAddress.value == "" {
          return Err("misses required value feeAddress");
        }
        feeBalance := Some(Fee(events, ComputeFeeBalance(events, feeAddress.value)));
      }
      r := Ok(balance);
    }
  }

  /** A property that may be a live object. */
  datatype Slot = SubSlot(ext: SubExtension) | PlainSlot(value: Value)

  function ValueOf(s: Slot): Value
    reads if s.SubSlot? then {s.ext} else {}
  {
    match s
    case SubSlot(ext) => SubValue(ext.Get())
    case PlainSlot(value) => value
  }

  function SlotObjects(slots: seq<Slot>): set<SubExtension> {
    set i | 0 <= i < |slots| && slots[i].SubSlot? :: slots[i].ext
  }

  function ValuesOf(slots: seq<Slot>): seq<Value>
    reads SlotObjects(slots)
  {
    seq(|slots|, i requires 0 <= i < |slots| reads SlotObjects(slots) => ValueOf(slots[i]))
  }

  /** No sub payment network appears twice, and plain properties are not sub payment networks. */
  ghost predicate Distinct(slots: seq<Slot>) {
    && (forall i, j :: 0 <= i < j < |slots| && slots[i].SubSlot? && slots[j].SubSlot? ==> slots[i].ext != slots[j].ext)
    && (forall i :: 0 <= i < |slots| && slots[i].PlainSlot? ==> !slots[i].value.SubValue?)
  }

  class MetaExtension {
    var values: seq<Slot>

    constructor (values: seq<Slot>)
      ensures this.values == values
    {
      this.values := values;
    }

    /** Visits one property; a live object is written in place. */
    method VisitSlot(source: Source, i: nat, g: Gathered) returns (r: Result<Gathered, string>)
      requires Distinct(values) && i < |values|
      modifies SlotObjects(values)
      ensures values == old(values)
      ensures var (outcome, after) := Visit(source, old(ValuesOf(values))[i], g);
        r == outcome && ValuesOf(values) == old(ValuesOf(values))[i := after]
    {
      ghost var before := ValuesOf(values);
      match values[i] {
        case PlainSlot(value) =>
          assert before[i] == value;
          r := Ok(g);
        case SubSlot(ext) =>
          assert before[i] == SubValue(ext.Get());
          if ext.network !in source.configured {
            return Err("is not supported for meta-pn detection");
          }
          var balance := ext.GetBalance(source);
          forall k | 0 <= k < |values| && k != i ensures ValueOf(values[k]) == before[k] {
            assert values[k].SubSlot? ==> values[k].ext != ext;
          }
          if balance.Err? {
            return Err(balance.error);
          }
          r := Ok(Gathered(
            g.events + balance.value.events,
            if ext.feeBalance.Some? then g.fees + [ext.feeBalance.value] else g.fees,
            g.balances + [balance.value.balance]));
      }
    }

    /** The loop over the properties, which writes into the objects it iterates. */
    method VisitSlots(source: Source) returns (r: Result<Gathered, string>)
      requires Distinct(values)
      modifies SlotObjects(values)
      ensures values == old(values)
      ensures (r, ValuesOf(values)) == VisitAll(source, old(ValuesOf(values)))
    {
      hide Visit, VisitAll, Distinct;
      ghost var before := ValuesOf(values);
      var g := Gathered([], [], []);
      VisitNothing(source, before);
      for i := 0 to |values|
        invariant values == old(values)
        invariant VisitAll(source, before[..i]).0 == Ok(g)
        invariant ValuesOf(values) == VisitAll(source, before[..i]).1 + before[i..]
        invariant |VisitAll(source, before[..i]).1| == i
      {
        VisitOneMore(source, before, i);
        var step := VisitSlot(source, i, g);
        if step.Err? {
          ThrowStopsVisit(source, before, i);
          return Err(step.error);
        }
        g := step.value;
      }
      assert before[..|values|] == before && VisitAll(source, before).1 + before[|values|..] == VisitAll(source, before).1;
      r := Ok(g);
    }

    method GetBalance(source: Source, declared: seq<Event>) returns (r: Balance)
      requires Distinct(values)
      modifies this, SlotObjects(values)
      ensures Distinct(values)
      ensures (r, ValuesOf(values)) == MetaBalance(source, declared, old(ValuesOf(values)))
    {
      hide VisitAll, FeeIndex, SortEvents, ComputeBalance, SumFees, FeeEvents, Distinct, PutFeeTotal;
      var g := VisitSlots(source);
      if g.Err? {
        return Balance(None, [], Some(g.error));
      }
      var events := SortEvents(declared + g.value.events);
      SetFeeTotal(Fee(FeeEvents(g.value.fees), SumFees(g.value.fees)));
      r := Balance(Some(ComputeBalance(events)), events, None);
    }

    /** Writes the fee total into the values, beside the live objects. */
    method SetFeeTotal(fee: Fee)
      requires Distinct(values)
      modifies this`values
      ensures Distinct(values)
      ensures ValuesOf(values) == PutFeeTotal(old(ValuesOf(values)), fee)
    {
      hide FeeIndex;
      ghost var before := ValuesOf(values);
      var i := FeeIndex(ValuesOf(values));
      assert i < |values| ==> before[i] == ValueOf(values[i]) && before[i].FeeTotal?;
      values := if i < |values| then values[i := PlainSlot(FeeTotal(fee))] else values + [PlainSlot(FeeTotal(fee))];
      assert forall k :: 0 <= k < |before| && k != i ==> ValuesOf(values)[k] == before[k];
    }
  }

  lemma VisitNothing(source: Source, values: seq<Value>)
    ensures VisitAll(source, values[..0]) == (Ok(Gathered([], [], [])), []) && [] + values[0..] == values
  {
  }

  lemma VisitOneMore(source: Source, values: seq<Value>, i: nat)
    requires i < |values| && VisitAll(source, values[..i]).0.Ok? && |VisitAll(source, values[..i]).1| == i
    ensures var visited := VisitAll(source, values[..i]).1;
      var (outcome, after) := Visit(source, values[i], VisitAll(source, values[..i]).0.value);
      && VisitAll(source, values[..i + 1]) == (outcome, visited + [after])
      && (visited + values[i..])[i] == values[i]
      && (visited + values[i..])[i := after] == visited + [after] + values[i + 1..]
      && (outcome.Err? ==> visited + [after] + values[i + 1..] == visited + values[i..])
  {
    assert values[..i + 1][..i] == values[..i];
    ThrowWritesNothing(source, values[i], VisitAll(source, values[..i]).0.value);
    assert [values[i]] + values[i + 1..] == values[i..];
  }

  lemma ThrowWritesNothing(source: Source, v: Value, g: Gathered)
    ensures Visit(source, v, g).0.Err? ==> Visit(source, v, g).1 == v
  {
  }

  lemma {:induction false} ThrowStopsVisit(source: Source, values: seq<Value>, i: nat)
    requires i < |values| && VisitAll(source, values[..i]).0.Ok?
    requires Visit(source, values[i], VisitAll(source, values[..i]).0.value).0.Err?
    ensures VisitAll(source, values).0 == Visit(source, values[i], VisitAll(source, values[..i]).0.value).0
    ensures VisitAll(source, values).1 == VisitAll(source, values[..i]).1 + values[i..]
    decreases |values|
  {
    var n := |values| - 1;
    if i == n {
      assert values[i..] == [values[i]];
    } else {
      assert values[..n][..i] == values[..i];
      ThrowStopsVisit(source, values[..n], i);
      var visited := VisitAll(source, values[..i]).1;
      assert visited + values[..n][i..] + [values[n]] == visited + values[i..];
    }
  }
}
