/** What one more transaction at the end of a channel changes, whatever the channel holds. */
module RequestSteps {
  import opened Sequences
  import opened Wrappers
  import opened TransactionTypes
  import opened RequestLogic
  import opened RequestLaws
  import PendingDifference

  /** An action that hashes alike is already in the list. */
  ghost predicate IsReplay(l: Logic, s: seq<Timestamped>, t: Timestamped) {
    exists k :: 0 <= k < |s| && SameAction(l, s[k], t)
  }

  /** What happens to one transaction: the state after it, and how it is ignored, if it is. */
  datatype Step = Step(state: Option<Request>, ignored: seq<IgnoredEntry>)

  /** Applying a transaction to a state: data that is not JSON, a replay and a rejected action leave the state as it is. */
  ghost function Arrive(l: Logic, state: Option<Request>, t: Timestamped, replay: bool): Step {
    match l.parse(DataIn(t))
    case None => Step(state, [Unparsable(t)])
    case Some(action) =>
      if replay then Step(state, [Duplicated(Parsed(action, t.state, t.timestamp))])
      else
        match l.apply(state, action, t.timestamp)
        case Ok(next) => Step(Some(next), [])
        case Err(reason) => Step(state, [Rejected(reason, Parsed(action, t.state, t.timestamp))])
  }

  // ---------- one more transaction in a list without stale ones ----------

  /** The state and the ignored entries of a list from which no transaction is dropped as stale. */
  function StateOfAll(l: Logic, s: seq<Timestamped>): Option<Request> {
    Fold(l, None, Uniques(l, ParseAll(l, s), []))
  }

  function IgnoredOfAll(l: Logic, s: seq<Timestamped>): seq<IgnoredEntry> {
    Unparsables(Unparsed(l, s)) + Duplicateds(Duplicates(l, ParseAll(l, s), [])) + RejectedBy(l, None, Uniques(l, ParseAll(l, s), []))
  }

  ghost predicate HasHash(l: Logic, ps: seq<Parsed>, h: string) {
    exists i :: 0 <= i < |ps| && l.hash(ps[i].action) == h
  }

  lemma HasHashCons(l: Logic, p: Parsed, rest: seq<Parsed>, h: string)
    ensures HasHash(l, [p] + rest, h) <==> l.hash(p.action) == h || HasHash(l, rest, h)
  {
    var all := [p] + rest;
    assert all[0] == p && forall i :: 0 <= i < |rest| ==> all[i + 1] == rest[i];
    if i :| 0 <= i < |all| && l.hash(all[i].action) == h && i > 0 {
      assert rest[i - 1] == all[i];
    }
    if i :| 0 <= i < |rest| && l.hash(rest[i].action) == h {
      assert all[i + 1] == rest[i];
    }
  }

  lemma {:induction false} SeenIff(l: Logic, ps: seq<Parsed>, seen: seq<string>, h: string)
    ensures h in SeenAfter(l, ps, seen) <==> h in seen || HasHash(l, ps, h)
    decreases ps
  {
    if ps != [] {
      hide HasHash;
      SeenIff(l, ps[1..], if l.hash(ps[0].action) in seen then seen else seen + [l.hash(ps[0].action)], h);
      assert ps == [ps[0]] + ps[1..];
      HasHashCons(l, ps[0], ps[1..], h);
    }
  }

  lemma IsReplayCons(l: Logic, s: seq<Timestamped>, t: Timestamped)
    requires s != []
    ensures IsReplay(l, s, t) <==> SameAction(l, s[0], t) || IsReplay(l, s[1..], t)
  {
    hide SameAction;
    if k :| 0 <= k < |s[1..]| && SameAction(l, s[1..][k], t) {
      assert SameAction(l, s[k + 1], t);
    }
    if k :| 0 <= k < |s| && SameAction(l, s[k], t) {
      assert k > 0 ==> s[1..][k - 1] == s[k];
    }
  }

  lemma {:induction false} HashesOf(l: Logic, s: seq<Timestamped>, t: Timestamped)
    requires l.parse(DataIn(t)).Some?
    ensures IsReplay(l, s, t) <==> HasHash(l, ParseAll(l, s), l.hash(l.parse(DataIn(t)).value))
  {
    if s != [] {
      hide IsReplay, HasHash;
      HashesOf(l, s[1..], t);
      IsReplayCons(l, s, t);
      var rest := ParseAll(l, s[1..]);
      match ParseEntry(l, s[0]) {
        case None => assert ParseAll(l, s) == rest;
        case Some(p) => HasHashCons(l, p, rest, l.hash(l.parse(DataIn(t)).value));
      }
    }
  }

  lemma ReplayIsSeen(l: Logic, s: seq<Timestamped>, t: Timestamped)
    requires l.parse(DataIn(t)).Some?
    ensures IsReplay(l, s, t) <==> l.hash(l.parse(DataIn(t)).value) in SeenAfter(l, ParseAll(l, s), [])
  {
    SeenIff(l, ParseAll(l, s), [], l.hash(l.parse(DataIn(t)).value));
    HashesOf(l, s, t);
  }

  lemma {:induction false} DuplicatesConcat(l: Logic, a: seq<Parsed>, b: seq<Parsed>, seen: seq<string>)
    ensures Duplicates(l, a + b, seen) == Duplicates(l, a, seen) + Duplicates(l, b, SeenAfter(l, a, seen))
    decreases a
  {
    if a == [] {
      assert a + b == b;
    } else {
      assert (a + b)[1..] == a[1..] + b;
      DuplicatesConcat(l, a[1..], b, if l.hash(a[0].action) in seen then seen else seen + [l.hash(a[0].action)]);
    }
  }

  lemma OneAction(l: Logic, p: Parsed, seen: seq<string>)
    ensures Uniques(l, [p], seen) == (if l.hash(p.action) in seen then [] else [p])
    ensures Duplicates(l, [p], seen) == (if l.hash(p.action) in seen then [p] else [])
  {
    assert [p][1..] == [];
  }

  lemma FoldOneMore(l: Logic, state: Option<Request>, ps: seq<Parsed>, p: Parsed)
    ensures var outcome, rejected := l.apply(Fold(l, state, ps), p.action, p.timestamp), RejectedBy(l, state, ps);
      && Fold(l, state, ps + [p]) == (if outcome.Ok? then Some(outcome.value) else Fold(l, state, ps))
      && RejectedBy(l, state, ps + [p]) == (if outcome.Ok? then rejected else rejected + [Rejected(outcome.error, p)])
  {
    FoldConcat(l, state, ps, [p]);
    assert [p][1..] == [];
  }

  /** The passes on one more transaction that parses. */
  lemma ParsedArrives(l: Logic, ps: seq<Parsed>, p: Parsed)
    ensures var replay := l.hash(p.action) in SeenAfter(l, ps, []);
      && Uniques(l, ps + [p], []) == Uniques(l, ps, []) + (if replay then [] else [p])
      && Duplicateds(Duplicates(l, ps + [p], [])) == Duplicateds(Duplicates(l, ps, [])) + (if replay then [Duplicated(p)] else [])
  {
    UniquesConcat(l, ps, [p], []);
    DuplicatesConcat(l, ps, [p], []);
    OneAction(l, p, SeenAfter(l, ps, []));
  }

  lemma UnparsablesSnoc(s: seq<Timestamped>, t: Timestamped)
    ensures Unparsables(s + [t]) == Unparsables(s) + [Unparsable(t)]
  {
  }

  lemma ArrivesInAll(l: Logic, s: seq<Timestamped>, t: Timestamped)
    ensures var step := Arrive(l, StateOfAll(l, s), t, IsReplay(l, s, t));
      && StateOfAll(l, s + [t]) == step.state
      && multiset(IgnoredOfAll(l, s + [t])) == multiset(IgnoredOfAll(l, s)) + multiset(step.ignored)
  {
    hide ParseAll, Unparsed, Uniques, Duplicates, Fold, RejectedBy, IsReplay, SeenAfter, Duplicateds, Unparsables;
    ParseSnoc(l, s, t);
    var ps, un := ParseAll(l, s), Unparsed(l, s);
    match l.parse(DataIn(t)) {
      case None =>
        assert ps + [] == ps;
        UnparsablesSnoc(un, t);
      case Some(action) =>
        var p := Parsed(action, t.state, t.timestamp);
        assert un + [] == un && Uniques(l, ps, []) + [] == Uniques(l, ps, []);
        ReplayIsSeen(l, s, t);
        ParsedArrives(l, ps, p);
        FoldOneMore(l, None, Uniques(l, ps, []), p);
    }
  }

  // ---------- one more transaction in a channel ----------

  lemma InterpretAll(l: Logic, s: seq<Timestamped>)
    ensures InterpretList(l, s).pending == StateOfAll(l, Kept(s))
    ensures InterpretList(l, s).ignored == OlderPendings(Stale(s)) + IgnoredOfAll(l, Kept(s))
    ensures InterpretList(l, s).confirmed == StateOfAll(l, Confirmeds(s))
  {
    hide Kept, Stale, ParseAll, Unparsed, Uniques, Duplicates, Fold, RejectedBy, Confirmeds, InState;
    TwoFoldsAreOne(l, s);
    ConfirmedStateIgnoresPending(l, s);
    Assoc(OlderPendings(Stale(s)), Unparsables(Unparsed(l, Kept(s))), Duplicateds(Duplicates(l, ParseAll(l, Kept(s)), [])));
  }

  lemma {:induction false} PendingIsKept(s: seq<Timestamped>, t: Timestamped)
    requires t.state == PENDING
    ensures Kept(s + [t]) == Kept(s) + [t] && Stale(s + [t]) == Stale(s) && Confirmeds(s + [t]) == Confirmeds(s)
  {
    NotConfirmed(t);
    if s == [] {
      assert s + [t] == [t] && [t][1..] == [];
    } else {
      hide HasConfirmed;
      PendingIsKept(s[1..], t);
      assert (s + [t])[0] == s[0] && (s + [t])[1..] == s[1..] + [t];
      HasConfirmedConcat(s[1..], [t]);
    }
  }

  lemma NotConfirmed(t: Timestamped)
    ensures HasConfirmed([t]) <==> t.state == CONFIRMED
  {
    assert [t][0] == t;
  }

  lemma HasConfirmedConcat(a: seq<Timestamped>, b: seq<Timestamped>)
    ensures HasConfirmed(a + b) <==> HasConfirmed(a) || HasConfirmed(b)
  {
    if i :| 0 <= i < |a| && a[i].state == CONFIRMED {
      assert (a + b)[i] == a[i];
    }
    if i :| 0 <= i < |b| && b[i].state == CONFIRMED {
      assert (a + b)[|a| + i] == b[i];
    }
  }

  /** The pending entries. */
  function Pendings(s: seq<Timestamped>): seq<Timestamped> {
    if s == [] then [] else (if s[0].state == PENDING then [s[0]] else []) + Pendings(s[1..])
  }

  /** One ignored entry for each pending transaction. */
  function StaleEntries(s: seq<Timestamped>): seq<IgnoredEntry> {
    if s == [] then [] else StaleEntries(s[1..]) + (if s[0].state == PENDING then [OlderPending(s[0])] else [])
  }

  lemma {:induction false} StaleEntriesAre(s: seq<Timestamped>)
    ensures StaleEntries(s) == OlderPendings(Reverse(Pendings(s)))
  {
    if s != [] {
      StaleEntriesAre(s[1..]);
      var rest := Pendings(s[1..]);
      if s[0].state == PENDING {
        assert Pendings(s) == [s[0]] + rest && Pendings(s)[1..] == rest;
        OlderPendingsSnoc(Reverse(rest), s[0]);
      } else {
        assert Pendings(s) == rest;
      }
    }
  }

  /** A confirmed transaction makes all pending ones before it stale, the latest first. */
  lemma {:induction false} ConfirmedDropsPending(s: seq<Timestamped>, t: Timestamped)
    requires t.state == CONFIRMED
    ensures Kept(s + [t]) == Confirmeds(s) + [t] && Stale(s + [t]) == Reverse(Pendings(s))
  {
    if s == [] {
      NotConfirmed(t);
      assert s + [t] == [t] && [t][1..] == [];
    } else {
      ConfirmedDropsPending(s[1..], t);
      ConfirmedAfter(s[0], s[1..], t);
      assert s + [t] == [s[0]] + (s[1..] + [t]);
    }
  }

  lemma ConfirmedAfter(first: Timestamped, rest: seq<Timestamped>, t: Timestamped)
    requires t.state == CONFIRMED
    ensures var all, s := [first] + (rest + [t]), [first] + rest;
      if first.state == CONFIRMED then
        && Kept(all) == [first] + Kept(rest + [t]) && Stale(all) == Stale(rest + [t])
        && Confirmeds(s) + [t] == [first] + (Confirmeds(rest) + [t]) && Pendings(s) == Pendings(rest)
      else
        && Kept(all) == Kept(rest + [t]) && Stale(all) == Stale(rest + [t]) + [first]
        && Confirmeds(s) + [t] == Confirmeds(rest) + [t] && Pendings(s) == [first] + Pendings(rest)
  {
    hide HasConfirmed;
    NotConfirmed(t);
    HasConfirmedConcat(rest, [t]);
    var all, s := [first] + (rest + [t]), [first] + rest;
    assert all[0] == first && all[1..] == rest + [t] && s[0] == first && s[1..] == rest;
    if first.state == PENDING {
      assert Confirmeds(s) == Confirmeds(rest);
    }
  }

  /** The entry is confirmed, or no confirmed one comes later. */
  predicate IsKept(s: seq<Timestamped>, k: int) {
    0 <= k < |s| && (s[k].state == CONFIRMED || forall j :: k < j < |s| ==> s[j].state == PENDING)
  }

  /** The transaction hashes like a confirmed one, or like one that is pending since the last confirmed one. */
  ghost predicate IsKeptReplay(l: Logic, s: seq<Timestamped>, t: Timestamped) {
    exists k :: IsKept(s, k) && SameAction(l, s[k], t)
  }

  /** The transaction hashes like a confirmed one. */
  ghost predicate IsConfirmedReplay(l: Logic, s: seq<Timestamped>, t: Timestamped) {
    exists k :: 0 <= k < |s| && s[k].state == CONFIRMED && SameAction(l, s[k], t)
  }

  lemma KeptReplayCons(l: Logic, s: seq<Timestamped>, t: Timestamped)
    requires s != []
    ensures IsKeptReplay(l, s, t) <==> (IsKept(s, 0) && SameAction(l, s[0], t)) || IsKeptReplay(l, s[1..], t)
    ensures IsKept(s, 0) <==> s[0].state == CONFIRMED || !HasConfirmed(s[1..])
  {
    hide SameAction;
    var rest := s[1..];
    assert forall k :: 0 <= k < |rest| ==> s[k + 1] == rest[k];
    if k :| IsKept(rest, k) && SameAction(l, rest[k], t) {
      assert IsKept(s, k + 1) && SameAction(l, s[k + 1], t);
    }
    if k :| IsKept(s, k) && SameAction(l, s[k], t) && k > 0 {
      assert IsKept(rest, k - 1) && SameAction(l, rest[k - 1], t);
    }
  }

  lemma {:induction false} KeptIff(l: Logic, s: seq<Timestamped>, t: Timestamped)
    ensures IsReplay(l, Kept(s), t) <==> IsKeptReplay(l, s, t)
  {
    if s != [] {
      hide SameAction, IsKept, IsReplay, IsKeptReplay, HasConfirmed;
      KeptIff(l, s[1..], t);
      KeptReplayCons(l, s, t);
      if IsKept(s, 0) {
        IsReplayCons(l, Kept(s), t);
        assert Kept(s)[1..] == Kept(s[1..]);
      } else {
        assert Kept(s) == Kept(s[1..]);
      }
    }
  }

  lemma ConfirmedReplayCons(l: Logic, s: seq<Timestamped>, t: Timestamped)
    requires s != []
    ensures IsConfirmedReplay(l, s, t) <==> (s[0].state == CONFIRMED && SameAction(l, s[0], t)) || IsConfirmedReplay(l, s[1..], t)
  {
    hide SameAction;
    var rest := s[1..];
    if k :| 0 <= k < |rest| && rest[k].state == CONFIRMED && SameAction(l, rest[k], t) {
      assert s[k + 1] == rest[k];
    }
    if k :| 0 <= k < |s| && s[k].state == CONFIRMED && SameAction(l, s[k], t) && k > 0 {
      assert s[k] == rest[k - 1];
    }
  }

  lemma {:induction false} ConfirmedIff(l: Logic, s: seq<Timestamped>, t: Timestamped)
    ensures IsReplay(l, Confirmeds(s), t) <==> IsConfirmedReplay(l, s, t)
  {
    if s != [] {
      hide SameAction, IsReplay, IsConfirmedReplay;
      ConfirmedIff(l, s[1..], t);
      ConfirmedReplayCons(l, s, t);
      if s[0].state == CONFIRMED {
        IsReplayCons(l, Confirmeds(s), t);
        assert Confirmeds(s)[1..] == Confirmeds(s[1..]);
      } else {
        assert Confirmeds(s) == Confirmeds(s[1..]);
      }
    }
  }

  /**
   A pending transaction arrives. The confirmed state stays. It is applied to the
   pending state, at its own time, unless it is not JSON, or hashes like a confirmed
   transaction or one that is pending since the last confirmed one, or is rejected; then
   exactly one ignored entry is added and says so.
   */
  lemma PendingArrives(l: Logic, s: seq<Timestamped>, t: Timestamped)
    requires t.state == PENDING
    ensures var before, after := InterpretList(l, s), InterpretList(l, s + [t]);
      var step := Arrive(l, before.pending, t, IsKeptReplay(l, s, t));
      && after.confirmed == before.confirmed
      && after.pending == step.state
      && multiset(after.ignored) == multiset(before.ignored) + multiset(step.ignored)
  {
    hide StateOfAll, IgnoredOfAll, InterpretList, Kept, Stale, Confirmeds, Arrive, IsKeptReplay, IsReplay;
    InterpretAll(l, s);
    InterpretAll(l, s + [t]);
    PendingIsKept(s, t);
    KeptIff(l, s, t);
    ArrivesInAll(l, Kept(s), t);
  }

  /**
   A confirmed transaction arrives. All pending transactions before it become stale, so
   that the pending state is the confirmed one. It is applied to the confirmed state, at
   its own time, unless it is not JSON, or hashes like a confirmed transaction, or is
   rejected; then exactly one ignored entry says so, besides those of the confirmed
   transactions alone and one for each pending transaction.
   */
  lemma ConfirmedArrives(l: Logic, s: seq<Timestamped>, t: Timestamped)
    requires t.state == CONFIRMED
    ensures var before, after := InterpretList(l, s), InterpretList(l, s + [t]);
      var step := Arrive(l, before.confirmed, t, IsConfirmedReplay(l, s, t));
      && after.confirmed == after.pending == step.state
      && multiset(after.ignored)
           == multiset(StaleEntries(s)) + multiset(InterpretList(l, Confirmeds(s)).ignored) + multiset(step.ignored)
  {
    hide StateOfAll, IgnoredOfAll, InterpretList, Kept, Stale, Confirmeds, Arrive, IsConfirmedReplay, IsReplay, Pendings, StaleEntries;
    InterpretAll(l, s);
    InterpretAll(l, s + [t]);
    InterpretAll(l, Confirmeds(s));
    OnlyConfirmed(s);
    ConfirmedDropsPending(s, t);
    StaleEntriesAre(s);
    ConfirmedsConcat(s, [t]);
    ConfirmedsOne(t);
    ConfirmedIff(l, s, t);
    ArrivesInAll(l, Confirmeds(s), t);
  }

  lemma OnlyConfirmed(s: seq<Timestamped>)
    ensures Kept(Confirmeds(s)) == Confirmeds(s) && OlderPendings(Stale(Confirmeds(s))) == []
  {
    KeptIsConfirmedThenPending(s);
    AllConfirmedKept(Confirmeds(s));
  }

  lemma {:induction false} AllConfirmedKept(s: seq<Timestamped>)
    requires AllTxIn(s, CONFIRMED)
    ensures Kept(s) == s && Stale(s) == []
  {
    if s != [] {
      AllConfirmedKept(s[1..]);
    }
  }

  /** Nothing has arrived yet. */
  lemma NothingArrived(l: Logic)
    ensures InterpretList(l, []) == Interpretation(None, None, [])
  {
  }

  // ---------- what a reader by topic receives ----------

  /** The interpretations that have a state. */
  function WithState(all: seq<Interpretation>): seq<Interpretation> {
    if all == [] then [] else WithState(all[..|all| - 1]) + (if all[|all| - 1].pending.Some? then [all[|all| - 1]] else [])
  }

  lemma {:induction false} FoldKeepsSome(l: Logic, state: Option<Request>, ps: seq<Parsed>)
    requires state.Some?
    ensures Fold(l, state, ps).Some?
    decreases ps
  {
    if ps != [] {
      match Apply(l, state, ps[0]) {
        case Ok(next) => FoldKeepsSome(l, Some(next), ps[1..]);
        case Err(_) => FoldKeepsSome(l, state, ps[1..]);
      }
    }
  }

  /** A confirmed state has a pending one beside it. */
  lemma ConfirmedHasPending(l: Logic, s: seq<Timestamped>)
    ensures InterpretList(l, s).confirmed.Some? ==> InterpretList(l, s).pending.Some?
  {
    var i := InterpretList(l, s);
    if i.confirmed.Some? {
      FoldKeepsSome(l, i.confirmed, InState(Uniques(l, ParseAll(l, Kept(s)), []), PENDING));
    }
  }

  /** Without a confirmed state the report holds the whole pending state, its events and every other property. */
  predicate IsReportOf(v: View, i: Interpretation, r: Report) {
    && r.confirmed == i.confirmed && r.ignored == i.ignored
    && (i.confirmed == None && i.pending.Some? ==>
          r.pending == Some(PendingDifference.Difference(Some(v.state(i.pending.value).events), v.state(i.pending.value).others)))
    && (i.confirmed.Some? && i.pending.Some? ==>
          r.pending == PendingDifference.Between(v.digest, v.state(i.confirmed.value), v.state(i.pending.value)))
  }

  /**
   The reports are those of exactly the channels that have a state, in their order; one
   that has no confirmed state shows its whole pending state.
   */
  lemma {:induction false} ChannelsWithStateAreReported(l: Logic, v: View, channels: seq<seq<Timestamped>>)
    ensures var all := seq(|channels|, i requires 0 <= i < |channels| => InterpretList(l, channels[i]));
      && |Reported(v, all)| == |WithState(all)|
      && forall i :: 0 <= i < |WithState(all)| ==> IsReportOf(v, WithState(all)[i], Reported(v, all)[i])
  {
    if channels != [] {
      hide InterpretList, PendingDifference.Between, IsReportOf;
      var n := |channels| - 1;
      var all := seq(|channels|, i requires 0 <= i < |channels| => InterpretList(l, channels[i]));
      ChannelsWithStateAreReported(l, v, channels[..n]);
      assert all[..n] == seq(n, i requires 0 <= i < n => InterpretList(l, channels[..n][i]));
      ConfirmedHasPending(l, channels[n]);
      OneReport(v, all[n]);
    }
  }

  lemma OneReport(v: View, i: Interpretation)
    requires i.confirmed.Some? ==> i.pending.Some?
    ensures IsReportOf(v, i, ReportOf(v, i))
    ensures i.pending.Some? <==> ReportOf(v, i).confirmed.Some? || ReportOf(v, i).pending.Some?
  {
  }
}
