/**
 From the cleaned transactions of a channel to the state of a request: stale
 pending transactions are dropped, replays are removed, and two folds that skip
 errors give the confirmed and the pending state.
 */
module RequestLogic {
  import opened Wrappers
  import opened TransactionTypes
  import PendingDifference
  import RequestCore

  type Action = RequestCore.Act
  type Request = RequestCore.Content

  /**
   The uninterpreted parts: the JSON parser, the normalized hash of an action,
   and the application of an action, which may throw. Every result about the
   interpretation holds for any such functions.
   */
  datatype Logic = Logic(
    parse: string -> Option<Action>,
    hash: Action -> string,
    apply: (Option<Request>, Action, int) -> Result<Request, string>)

  /** A parsed action with the state and timestamp of its transaction. */
  datatype Parsed = Parsed(action: Action, state: TransactionState, timestamp: int)

  datatype IgnoredEntry =
    | OlderPending(entry: Timestamped)
    | Unparsable(entry: Timestamped)
    | Duplicated(parsed: Parsed)
    | Rejected(reason: string, parsed: Parsed)

  datatype Interpretation = Interpretation(confirmed: Option<Request>, pending: Option<Request>, ignored: seq<IgnoredEntry>)

  // ---------- lists ----------

  function NotNulls<T>(s: seq<Option<T>>): seq<T> {
    if s == [] then [] else (if s[0].Some? then [s[0].value] else []) + NotNulls(s[1..])
  }

  function Reverse<T>(s: seq<T>): seq<T> {
    if s == [] then [] else Reverse(s[1..]) + [s[0]]
  }

  /** The entries in one state, in order. */
  function InState(ps: seq<Parsed>, state: TransactionState): seq<Parsed> {
    if ps == [] then [] else (if ps[0].state == state then [ps[0]] else []) + InState(ps[1..], state)
  }

  // ---------- stale pending transactions ----------

  predicate HasConfirmed(s: seq<Timestamped>) {
    exists i :: 0 <= i < |s| && s[i].state == CONFIRMED
  }

  /** A pending transaction is kept unless a confirmed one comes later. */
  function Kept(s: seq<Timestamped>): seq<Timestamped> {
    if s == [] then []
    else (if s[0].state == CONFIRMED || !HasConfirmed(s[1..]) then [s[0]] else []) + Kept(s[1..])
  }

  /** The stale ones, latest first. */
  function Stale(s: seq<Timestamped>): seq<Timestamped> {
    if s == [] then []
    else Stale(s[1..]) + (if s[0].state == CONFIRMED || !HasConfirmed(s[1..]) then [] else [s[0]])
  }

  // ---------- parsing ----------

  function ParseEntry(l: Logic, t: Timestamped): Option<Parsed> {
    match l.parse(DataIn(t))
    case Some(action) => Some(Parsed(action, t.state, t.timestamp))
    case None => None
  }

  function ParseAll(l: Logic, s: seq<Timestamped>): seq<Parsed> {
    if s == [] then []
    else (match ParseEntry(l, s[0]) case Some(p) => [p] case None => []) + ParseAll(l, s[1..])
  }

  function Unparsed(l: Logic, s: seq<Timestamped>): seq<Timestamped> {
    if s == [] then [] else (if ParseEntry(l, s[0]).None? then [s[0]] else []) + Unparsed(l, s[1..])
  }

  // ---------- replays ----------

  /** The first occurrence of each hash that was not seen before. */
  function Uniques(l: Logic, ps: seq<Parsed>, seen: seq<string>): seq<Parsed> {
    if ps == [] then []
    else if l.hash(ps[0].action) in seen then Uniques(l, ps[1..], seen)
    else [ps[0]] + Uniques(l, ps[1..], seen + [l.hash(ps[0].action)])
  }

  function Duplicates(l: Logic, ps: seq<Parsed>, seen: seq<string>): seq<Parsed> {
    if ps == [] then []
    else if l.hash(ps[0].action) in seen then [ps[0]] + Duplicates(l, ps[1..], seen)
    else Duplicates(l, ps[1..], seen + [l.hash(ps[0].action)])
  }

  // ---------- the error-skipping fold ----------

  function Apply(l: Logic, state: Option<Request>, p: Parsed): Result<Request, string> {
    l.apply(state, p.action, p.timestamp)
  }

  function Fold(l: Logic, state: Option<Request>, ps: seq<Parsed>): Option<Request>
    decreases ps
  {
    if ps == [] then state
    else
      match Apply(l, state, ps[0])
      case Ok(next) => Fold(l, Some(next), ps[1..])
      case Err(_) => Fold(l, state, ps[1..])
  }

  function RejectedBy(l: Logic, state: Option<Request>, ps: seq<Parsed>): seq<IgnoredEntry>
    decreases ps
  {
    if ps == [] then []
    else
      match Apply(l, state, ps[0])
      case Ok(next) => RejectedBy(l, Some(next), ps[1..])
      case Err(reason) => [Rejected(reason, ps[0])] + RejectedBy(l, state, ps[1..])
  }

  // ---------- the whole interpretation ----------

  function OlderPendings(s: seq<Timestamped>): seq<IgnoredEntry> {
    seq(|s|, i requires 0 <= i < |s| => OlderPending(s[i]))
  }

  function Unparsables(s: seq<Timestamped>): seq<IgnoredEntry> {
    seq(|s|, i requires 0 <= i < |s| => Unparsable(s[i]))
  }

  function Duplicateds(ps: seq<Parsed>): seq<IgnoredEntry> {
    seq(|ps|, i requires 0 <= i < |ps| => Duplicated(ps[i]))
  }

  /** The two folds over the transactions without replays. */
  function TwoFolds(l: Logic, ps: seq<Parsed>): (Option<Request>, Option<Request>, seq<IgnoredEntry>) {
    var confirmed := Fold(l, None, InState(ps, CONFIRMED));
    (confirmed, Fold(l, confirmed, InState(ps, PENDING)),
     RejectedBy(l, None, InState(ps, CONFIRMED)) + RejectedBy(l, confirmed, InState(ps, PENDING)))
  }

  function InterpretList(l: Logic, s: seq<Timestamped>): Interpretation {
    var parsed := ParseAll(l, Kept(s));
    var (confirmed, pending, rejected) := TwoFolds(l, Uniques(l, parsed, []));
    Interpretation(confirmed, pending,
      OlderPendings(Stale(s)) + Unparsables(Unparsed(l, Kept(s))) + Duplicateds(Duplicates(l, parsed, [])) + rejected)
  }

  /** The reading by topic: the channel as the layer below returns it, null positions included. */
  function InterpretChannel(l: Logic, s: seq<Option<Timestamped>>): Interpretation {
    InterpretList(l, NotNulls(s))
  }

  /** A stable insertion after every entry that is not later. */
  function InsertByTime(s: seq<Timestamped>, t: Timestamped): seq<Timestamped> {
    if s != [] && s[|s| - 1].timestamp > t.timestamp then InsertByTime(s[..|s| - 1], t) + [s[|s| - 1]] else s + [t]
  }

  function SortByTime(s: seq<Timestamped>): seq<Timestamped> {
    if s == [] then [] else InsertByTime(SortByTime(s[..|s| - 1]), s[|s| - 1])
  }

  /** The reading by request id, which sorts by timestamp first. */
  function InterpretById(l: Logic, s: seq<Option<Timestamped>>): Interpretation {
    InterpretList(l, SortByTime(NotNulls(s)))
  }

  // ---------- the program's own form ----------

  lemma {:induction false} ReverseAt<T>(s: seq<T>, k: nat)
    requires k < |s|
    ensures |Reverse(s)| == |s| && Reverse(s)[k] == s[|s| - 1 - k]
  {
    if |s| > 1 {
      ReverseAt(s[1..], if k < |s| - 1 then k else 0);
    }
  }

  lemma ReverseIs<T>(s: seq<T>, r: seq<T>)
    requires |r| == |s| && forall k :: 0 <= k < |s| ==> r[k] == s[|s| - 1 - k]
    ensures r == Reverse(s)
  {
    forall k | 0 <= k < |s| ensures |Reverse(s)| == |s| && r[k] == Reverse(s)[k] {
      ReverseAt(s, k);
    }
    assert s == [] ==> Reverse(s) == [];
  }

  /** Reverses the caller's array in place, as `Array.reverse` does. */
  method ReverseInPlace<T>(a: array<T>)
    modifies a
    ensures a[..] == Reverse(old(a[..]))
  {
    var n := a.Length;
    for i := 0 to n / 2
      invariant forall k :: 0 <= k < i ==> a[k] == old(a[n - 1 - k]) && a[n - 1 - k] == old(a[k])
      invariant forall k :: i <= k < n - i ==> a[k] == old(a[k])
    {
      a[i], a[n - 1 - i] := a[n - 1 - i], a[i];
    }
    ReverseIs(old(a[..]), a[..]);
  }

  /**
   Scans the reversed channel with a flag that is raised at the first confirmed
   transaction. The caller's array is left reversed.
   */
  method RemoveOldPendingTransactions(transactions: array<Option<Timestamped>>)
    returns (ignoredTransactions: seq<IgnoredEntry>, keptTransactions: seq<Timestamped>)
    modifies transactions
    ensures transactions[..] == Reverse(old(transactions[..]))
    ensures keptTransactions == Kept(NotNulls(old(transactions[..])))
    ensures ignoredTransactions == OlderPendings(Stale(NotNulls(old(transactions[..]))))
  {
    ghost var s := transactions[..];
    ReverseInPlace(transactions);
    var keptReversed;
    ignoredTransactions, keptReversed := FilterNewest(transactions[..], s);
    keptTransactions := Reverse(keptReversed);
  }

  /** The filter over the channel read from its newest entry. */
  method FilterNewest(newestFirst: seq<Option<Timestamped>>, ghost s: seq<Option<Timestamped>>)
    returns (ignoredTransactions: seq<IgnoredEntry>, keptReversed: seq<Timestamped>)
    requires newestFirst == Reverse(s)
    ensures Reverse(keptReversed) == Kept(NotNulls(s))
    ensures ignoredTransactions == OlderPendings(Stale(NotNulls(s)))
  {
    hide Kept, Stale, NotNulls, HasConfirmed, OlderPendings, Reverse;
    ignoredTransactions, keptReversed := [], [];
    var confirmedFound := false;
    ghost var later: seq<Timestamped> := [];
    ghost var n := |s|;
    ReverseLength(s);
    NothingKept(s);
    for i := 0 to |newestFirst|
      invariant later == NotNulls(s[n - i..])
      invariant confirmedFound == HasConfirmed(later)
      invariant Reverse(keptReversed) == Kept(later)
      invariant ignoredTransactions == OlderPendings(Stale(later))
    {
      ReverseAt(s, i);
      NotNullsAt(s, n - 1 - i);
      if newestFirst[i].Some? {
        var action := newestFirst[i].value;
        HasConfirmedCons(action, later);
        KeptCons(action, later);
        // keep the transaction if confirmed, or pending but no confirmed found before
        if action.state == CONFIRMED || !confirmedFound {
          ReverseSnoc(keptReversed, action);
          keptReversed := keptReversed + [action];
        } else {
          OlderPendingsSnoc(Stale(later), action);
          ignoredTransactions := ignoredTransactions + [OlderPending(action)];
        }
        confirmedFound := confirmedFound || action.state == CONFIRMED;
        later := [action] + later;
      }
    }
    assert s[0..] == s;
  }

  lemma NothingKept(s: seq<Option<Timestamped>>)
    ensures var none: seq<Timestamped> := [];
      && NotNulls(s[|s|..]) == none && !HasConfirmed(none) && Reverse(none) == none
      && Kept(none) == none && OlderPendings(Stale(none)) == []
  {
  }

  lemma {:induction false} ReverseLength<T>(s: seq<T>)
    ensures |Reverse(s)| == |s|
  {
    if s != [] {
      ReverseAt(s, 0);
    }
  }

  lemma NotNullsAt<T>(s: seq<Option<T>>, j: nat)
    requires j < |s|
    ensures NotNulls(s[j..]) == (if s[j].Some? then [s[j].value] else []) + NotNulls(s[j + 1..])
  {
    assert s[j..][1..] == s[j + 1..];
  }

  lemma KeptCons(t: Timestamped, s: seq<Timestamped>)
    ensures var isKept := t.state == CONFIRMED || !HasConfirmed(s);
      && Kept([t] + s) == (if isKept then [t] + Kept(s) else Kept(s))
      && Stale([t] + s) == (if isKept then Stale(s) else Stale(s) + [t])
  {
    assert ([t] + s)[1..] == s;
  }

  lemma OlderPendingsSnoc(s: seq<Timestamped>, t: Timestamped)
    ensures OlderPendings(s + [t]) == OlderPendings(s) + [OlderPending(t)]
  {
  }

  lemma HasConfirmedCons(t: Timestamped, s: seq<Timestamped>)
    ensures HasConfirmed([t] + s) <==> t.state == CONFIRMED || HasConfirmed(s)
  {
    assert forall i :: 0 <= i < |s| ==> ([t] + s)[i + 1] == s[i];
    assert ([t] + s)[0] == t;
  }

  lemma {:induction false} ReverseSnoc<T>(s: seq<T>, t: T)
    ensures Reverse(s + [t]) == [t] + Reverse(s)
  {
    if s != [] {
      assert (s + [t])[1..] == s[1..] + [t];
      ReverseSnoc(s[1..], t);
    }
  }

  /** Separates the parsed actions of an array by the hash of their action. */
  method UniqueByAction(l: Logic, items: seq<Parsed>) returns (uniqueItems: seq<Parsed>, duplicates: seq<Parsed>)
    ensures uniqueItems == Uniques(l, items, [])
    ensures duplicates == Duplicates(l, items, [])
  {
    uniqueItems, duplicates := [], [];
    var hashes: seq<string> := [];
    for i := 0 to |items|
      invariant Uniques(l, items, []) == uniqueItems + Uniques(l, items[i..], hashes)
      invariant Duplicates(l, items, []) == duplicates + Duplicates(l, items[i..], hashes)
    {
      assert items[i..][1..] == items[i + 1..];
      var hash := l.hash(items[i].action);
      if hash in hashes {
        duplicates := duplicates + [items[i]];
      } else {
        uniqueItems := uniqueItems + [items[i]];
        hashes := hashes + [hash];
      }
    }
  }

  method FoldSkippingErrors(l: Logic, start: Option<Request>, actions: seq<Parsed>, ignored: seq<IgnoredEntry>)
    returns (requestState: Option<Request>, ignoredAfter: seq<IgnoredEntry>)
    ensures requestState == Fold(l, start, actions)
    ensures ignoredAfter == ignored + RejectedBy(l, start, actions)
  {
    requestState, ignoredAfter := start, ignored;
    for i := 0 to |actions|
      invariant Fold(l, requestState, actions[i..]) == Fold(l, start, actions)
      invariant ignoredAfter + RejectedBy(l, requestState, actions[i..]) == ignored + RejectedBy(l, start, actions)
    {
      assert actions[i..][1..] == actions[i + 1..];
      match Apply(l, requestState, actions[i]) {
        case Ok(next) => requestState := Some(next);
        case Err(reason) => ignoredAfter := ignoredAfter + [Rejected(reason, actions[i])];
      }
    }
  }

  /** Parses the kept transactions and pushes those that are not JSON onto the ignored list. */
  method ParseActions(l: Logic, transactions: seq<Timestamped>, ignored: seq<IgnoredEntry>)
    returns (parsed: seq<Parsed>, ignoredAfter: seq<IgnoredEntry>)
    ensures parsed == ParseAll(l, transactions)
    ensures ignoredAfter == ignored + Unparsables(Unparsed(l, transactions))
  {
    hide ParseAll, Unparsed, ParseEntry;
    parsed, ignoredAfter := [], ignored;
    ParseNothing(l);
    for i := 0 to |transactions|
      invariant parsed == ParseAll(l, transactions[..i])
      invariant ignoredAfter == ignored + Unparsables(Unparsed(l, transactions[..i]))
    {
      ParseOneMore(l, transactions, i);
      match ParseEntry(l, transactions[i]) {
        case Some(p) => parsed := parsed + [p];
        case None => ignoredAfter := ignoredAfter + [Unparsable(transactions[i])];
      }
    }
    assert transactions[..|transactions|] == transactions;
  }

  lemma ParseNothing(l: Logic)
    ensures ParseAll(l, []) == [] && Unparsed(l, []) == []
  {
  }

  lemma ParseOneMore(l: Logic, s: seq<Timestamped>, i: nat)
    requires i < |s|
    ensures var before, after := s[..i], s[..i + 1];
      match ParseEntry(l, s[i])
      case Some(p) => ParseAll(l, after) == ParseAll(l, before) + [p] && Unparsed(l, after) == Unparsed(l, before)
      case None => ParseAll(l, after) == ParseAll(l, before) && Unparsed(l, after) == Unparsed(l, before) + [s[i]]
  {
    assert s[..i + 1] == s[..i] + [s[i]];
    ParseSnoc(l, s[..i], s[i]);
  }

  lemma {:induction false} ParseSnoc(l: Logic, s: seq<Timestamped>, t: Timestamped)
    ensures ParseAll(l, s + [t]) == ParseAll(l, s) + (match ParseEntry(l, t) case Some(p) => [p] case None => [])
    ensures Unparsed(l, s + [t]) == Unparsed(l, s) + (if ParseEntry(l, t).None? then [t] else [])
  {
    hide ParseEntry;
    if s == [] {
      assert s + [t] == [t] && [t][1..] == [];
    } else {
      assert (s + [t])[0] == s[0] && (s + [t])[1..] == s[1..] + [t];
      ParseSnoc(l, s[1..], t);
    }
  }

  /** The pipeline shared by both readings, on an array that it leaves reversed. */
  method ComputeRequestFromChannel(l: Logic, transactions: array<Option<Timestamped>>) returns (r: Interpretation)
    modifies transactions
    ensures r == InterpretChannel(l, old(transactions[..]))
    ensures transactions[..] == Reverse(old(transactions[..]))
  {
    hide Kept, Stale, NotNulls, SortByTime, ParseAll, Unparsed, Uniques, Duplicates, Fold, RejectedBy, InState, Reverse, OlderPendings,
      Unparsables, Duplicateds, HasConfirmed, Apply;
    var ignoredTransactions, keptTransactions := RemoveOldPendingTransactions(transactions);
    var parsed: seq<Parsed>;
    parsed, ignoredTransactions := ParseActions(l, keptTransactions, ignoredTransactions);
    var uniqueItems, duplicates := UniqueByAction(l, parsed);
    ignoredTransactions := ignoredTransactions + Duplicateds(duplicates);
    var confirmed, rejected := FoldSkippingErrors(l, None, InState(uniqueItems, CONFIRMED), []);
    var pending, allRejected := FoldSkippingErrors(l, confirmed, InState(uniqueItems, PENDING), rejected);
    r := Interpretation(confirmed, pending, ignoredTransactions + allRejected);
  }

  /** What a reader by topic receives for one request. */
  datatype Report = Report(confirmed: Option<Request>, pending: Option<PendingDifference.Difference>, ignored: seq<IgnoredEntry>)

  /** How the properties of a request are seen as JSON, and how they are hashed. */
  datatype View = View(state: Request -> PendingDifference.State, digest: PendingDifference.Digest)

  function StateOf(v: View, request: Option<Request>): Option<PendingDifference.State> {
    if request.Some? then Some(v.state(request.value)) else None
  }

  function ReportOf(v: View, i: Interpretation): Report {
    Report(i.confirmed, PendingDifference.Reported(v.digest, StateOf(v, i.confirmed), StateOf(v, i.pending)), i.ignored)
  }

  /** The reports that have a confirmed state or a pending difference. */
  function Reported(v: View, all: seq<Interpretation>): seq<Report> {
    if all == [] then []
    else
      var before, last := Reported(v, all[..|all| - 1]), ReportOf(v, all[|all| - 1]);
      if last.confirmed.Some? || last.pending.Some? then before + [last] else before
  }

  /**
   The reading by topic. Each channel is interpreted on its own; a channel without
   any state is not reported.
   */
  method ComputeMultipleRequestFromChannels(l: Logic, v: View, channels: seq<array<Option<Timestamped>>>) returns (r: seq<Report>)
    requires forall i, j :: 0 <= i < j < |channels| ==> channels[i] != channels[j]
    modifies set i | 0 <= i < |channels| :: channels[i]
    ensures r == Reported(v, seq(|channels|, i requires 0 <= i < |channels| => InterpretChannel(l, old(channels[i][..]))))
  {
    hide InterpretChannel, PendingDifference.Reported;
    r := [];
    ghost var all := seq(|channels|, i requires 0 <= i < |channels| => InterpretChannel(l, old(channels[i][..])));
    for k := 0 to |channels|
      invariant forall i :: k <= i < |channels| ==> channels[i][..] == old(channels[i][..])
      invariant r == Reported(v, all[..k])
    {
      assert all[..k + 1][..k] == all[..k];
      var one := ComputeRequestFromChannel(l, channels[k]);
      var pending := PendingDifference.ComputeDiff(v.digest, StateOf(v, one.confirmed), StateOf(v, one.pending));
      if one.confirmed.Some? || pending.Some? {
        r := r + [Report(one.confirmed, pending, one.ignored)];
      }
    }
    assert all[..|channels|] == all;
  }

  /** The reading by request id: filters and sorts, then the program's other copy of the same steps, on an array of its own. */
  method ComputeRequestFromRequestId(l: Logic, transactions: seq<Option<Timestamped>>) returns (r: Interpretation)
    ensures r == InterpretById(l, transactions)
  {
    hide Kept, Stale, NotNulls, SortByTime, ParseAll, Unparsed, Uniques, Duplicates, Fold, RejectedBy, InState, Reverse, OlderPendings,
      Unparsables, Duplicateds, HasConfirmed, Apply;
    var actions := SortByTime(NotNulls(transactions));
    var own := new Option<Timestamped>[|actions|](i requires 0 <= i < |actions| => Some(actions[i]));
    WrapNotNull(actions, own[..]);
    var ignoredTransactions, keptTransactions := RemoveOldPendingTransactions(own);
    var parsed: seq<Parsed>;
    parsed, ignoredTransactions := ParseActions(l, keptTransactions, ignoredTransactions);
    var uniqueItems, duplicates := UniqueByAction(l, parsed);
    ignoredTransactions := ignoredTransactions + Duplicateds(duplicates);
    var confirmed, rejected := FoldSkippingErrors(l, None, InState(uniqueItems, CONFIRMED), []);
    var pending, allRejected := FoldSkippingErrors(l, confirmed, InState(uniqueItems, PENDING), rejected);
    r := Interpretation(confirmed, pending, ignoredTransactions + allRejected);
  }

  lemma {:induction false} WrapNotNull<T>(s: seq<T>, wrapped: seq<Option<T>>)
    requires |wrapped| == |s| && forall i :: 0 <= i < |s| ==> wrapped[i] == Some(s[i])
    ensures NotNulls(wrapped) == s
  {
    if s != [] {
      WrapNotNull(s[1..], wrapped[1..]);
    }
  }
}
