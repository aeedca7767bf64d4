/** What the interpretation of a channel guarantees, for any actions and any way of applying them. */
module RequestLaws {
  import opened Sequences
  import opened Wrappers
  import opened TransactionTypes
  import opened RequestLogic
  import PendingDifference

  // ---------- what is kept ----------

  function Confirmeds(s: seq<Timestamped>): seq<Timestamped> {
    if s == [] then [] else (if s[0].state == CONFIRMED then [s[0]] else []) + Confirmeds(s[1..])
  }

  /** The entries after the last confirmed one. */
  function Trailing(s: seq<Timestamped>): seq<Timestamped> {
    if s == [] || !HasConfirmed(s) then s else Trailing(s[1..])
  }

  ghost predicate AllIn(ps: seq<Parsed>, state: TransactionState) {
    forall i :: 0 <= i < |ps| ==> ps[i].state == state
  }

  ghost predicate AllTxIn(s: seq<Timestamped>, state: TransactionState) {
    forall i :: 0 <= i < |s| ==> s[i].state == state
  }

  /** What is kept is every confirmed entry, in order, followed by the pending entries after the last of them. */
  lemma {:induction false} KeptIsConfirmedThenPending(s: seq<Timestamped>)
    ensures Kept(s) == Confirmeds(s) + Trailing(s)
    ensures AllTxIn(Confirmeds(s), CONFIRMED) && AllTxIn(Trailing(s), PENDING)
  {
    if s != [] {
      KeptIsConfirmedThenPending(s[1..]);
      HasConfirmedCons(s[0], s[1..]);
      assert s == [s[0]] + s[1..];
      if !HasConfirmed(s) {
        NoneConfirmed(s);
        NoneConfirmed(s[1..]);
      }
    }
  }

  lemma {:induction false} NoneConfirmed(s: seq<Timestamped>)
    requires !HasConfirmed(s)
    ensures Confirmeds(s) == [] && Trailing(s) == s && AllTxIn(s, PENDING)
  {
    if s != [] {
      HasConfirmedCons(s[0], s[1..]);
      assert s == [s[0]] + s[1..];
      NoneConfirmed(s[1..]);
    }
  }

  // ---------- the passes distribute over concatenation ----------

  lemma {:induction false} ParseAllConcat(l: Logic, a: seq<Timestamped>, b: seq<Timestamped>)
    ensures ParseAll(l, a + b) == ParseAll(l, a) + ParseAll(l, b)
  {
    if a == [] {
      assert a + b == b;
    } else {
      ParseAllConcat(l, a[1..], b);
      assert (a + b)[1..] == a[1..] + b;
      var head := match ParseEntry(l, a[0]) case Some(p) => [p] case None => [];
      assert (a + b)[0] == a[0];
      Assoc(head, ParseAll(l, a[1..]), ParseAll(l, b));
    }
  }

  lemma {:induction false} ParseAllKeepsState(l: Logic, s: seq<Timestamped>, state: TransactionState)
    requires AllTxIn(s, state)
    ensures AllIn(ParseAll(l, s), state)
  {
    if s != [] {
      ParseAllKeepsState(l, s[1..], state);
    }
  }

  lemma {:induction false} ConfirmedsConcat(a: seq<Timestamped>, b: seq<Timestamped>)
    ensures Confirmeds(a + b) == Confirmeds(a) + Confirmeds(b)
  {
    if a == [] {
      assert a + b == b;
    } else {
      ConfirmedsConcat(a[1..], b);
      assert (a + b)[1..] == a[1..] + b;
      var head := if a[0].state == CONFIRMED then [a[0]] else [];
      assert (a + b)[0] == a[0];
      Assoc(head, Confirmeds(a[1..]), Confirmeds(b));
    }
  }

  /** The hashes seen after a list. */
  function SeenAfter(l: Logic, ps: seq<Parsed>, seen: seq<string>): seq<string>
    decreases ps
  {
    if ps == [] then seen
    else SeenAfter(l, ps[1..], if l.hash(ps[0].action) in seen then seen else seen + [l.hash(ps[0].action)])
  }

  lemma {:induction false} SeenGrows(l: Logic, ps: seq<Parsed>, seen: seq<string>)
    ensures forall h :: h in seen ==> h in SeenAfter(l, ps, seen)
    ensures forall i :: 0 <= i < |ps| ==> l.hash(ps[i].action) in SeenAfter(l, ps, seen)
    decreases ps
  {
    if ps != [] {
      var next := if l.hash(ps[0].action) in seen then seen else seen + [l.hash(ps[0].action)];
      SeenGrows(l, ps[1..], next);
      assert l.hash(ps[0].action) in next;
    }
  }

  lemma {:induction false} UniquesConcat(l: Logic, a: seq<Parsed>, b: seq<Parsed>, seen: seq<string>)
    ensures Uniques(l, a + b, seen) == Uniques(l, a, seen) + Uniques(l, b, SeenAfter(l, a, seen))
    ensures SeenAfter(l, a + b, seen) == SeenAfter(l, b, SeenAfter(l, a, seen))
    decreases a
  {
    if a == [] {
      assert a + b == b;
    } else {
      assert (a + b)[1..] == a[1..] + b;
      UniquesConcat(l, a[1..], b, if l.hash(a[0].action) in seen then seen else seen + [l.hash(a[0].action)]);
    }
  }

  lemma {:induction false} UniquesKeepState(l: Logic, ps: seq<Parsed>, seen: seq<string>, state: TransactionState)
    requires AllIn(ps, state)
    ensures AllIn(Uniques(l, ps, seen), state)
    decreases ps
  {
    if ps != [] {
      UniquesKeepState(l, ps[1..], if l.hash(ps[0].action) in seen then seen else seen + [l.hash(ps[0].action)], state);
    }
  }

  lemma {:induction false} InStateSplit(a: seq<Parsed>, b: seq<Parsed>)
    requires AllIn(a, CONFIRMED) && AllIn(b, PENDING)
    ensures InState(a + b, CONFIRMED) == a && InState(a + b, PENDING) == b
  {
    if a != [] {
      InStateSplit(a[1..], b);
      assert (a + b)[1..] == a[1..] + b;
    } else if b != [] {
      InStateSplit(a, b[1..]);
      assert (a + b)[1..] == a + b[1..];
    }
  }

  lemma {:induction false} FoldConcat(l: Logic, state: Option<Request>, a: seq<Parsed>, b: seq<Parsed>)
    ensures Fold(l, state, a + b) == Fold(l, Fold(l, state, a), b)
    ensures RejectedBy(l, state, a + b) == RejectedBy(l, state, a) + RejectedBy(l, Fold(l, state, a), b)
    decreases a
  {
    if a == [] {
      assert a + b == b;
    } else {
      assert (a + b)[1..] == a[1..] + b;
      match Apply(l, state, a[0]) {
        case Ok(next) => FoldConcat(l, Some(next), a[1..], b);
        case Err(_) => FoldConcat(l, state, a[1..], b);
      }
    }
  }

  // ---------- the main results ----------

  /** The actions of the confirmed entries, without replays. */
  function ConfirmedActions(l: Logic, s: seq<Timestamped>): seq<Parsed> {
    Uniques(l, ParseAll(l, Confirmeds(s)), [])
  }

  /** The unique actions are the confirmed ones followed by pending ones. */
  lemma UniqueActionsSplit(l: Logic, s: seq<Timestamped>)
    ensures var uniques := Uniques(l, ParseAll(l, Kept(s)), []);
      var confirmed := ConfirmedActions(l, s);
      && InState(uniques, CONFIRMED) == confirmed
      && uniques == confirmed + InState(uniques, PENDING)
  {
    KeptIsConfirmedThenPending(s);
    var c, p := ParseAll(l, Confirmeds(s)), ParseAll(l, Trailing(s));
    ParseAllConcat(l, Confirmeds(s), Trailing(s));
    ParseAllKeepsState(l, Confirmeds(s), CONFIRMED);
    ParseAllKeepsState(l, Trailing(s), PENDING);
    UniquesConcat(l, c, p, []);
    UniquesKeepState(l, c, [], CONFIRMED);
    UniquesKeepState(l, p, SeenAfter(l, c, []), PENDING);
    InStateSplit(Uniques(l, c, []), Uniques(l, p, SeenAfter(l, c, [])));
  }

  /**
   The confirmed state is immune to pending entries: whatever the list, it is the
   error-skipping fold over the confirmed entries alone.
   */
  lemma ConfirmedStateIgnoresPending(l: Logic, s: seq<Timestamped>)
    ensures InterpretList(l, s).confirmed == Fold(l, None, ConfirmedActions(l, s))
    ensures InterpretList(l, s).confirmed == InterpretList(l, Confirmeds(s)).confirmed
  {
    UniqueActionsSplit(l, s);
    UniqueActionsSplit(l, Confirmeds(s));
    KeptIsConfirmedThenPending(s);
    ConfirmedsAgain(s);
  }

  lemma {:induction false} ConfirmedsAgain(s: seq<Timestamped>)
    ensures Confirmeds(Confirmeds(s)) == Confirmeds(s)
  {
    if s != [] {
      ConfirmedsAgain(s[1..]);
      if s[0].state == CONFIRMED {
        ConfirmedsConcat([s[0]], Confirmeds(s[1..]));
        ConfirmedsOne(s[0]);
      } else {
        assert Confirmeds(s) == Confirmeds(s[1..]);
      }
    }
  }

  lemma ConfirmedsOne(t: Timestamped)
    requires t.state == CONFIRMED
    ensures Confirmeds([t]) == [t]
  {
    assert [t][1..] == [];
  }

  /** The two folds are one: the pending state and the rejections are those of a single fold over all unique actions. */
  lemma TwoFoldsAreOne(l: Logic, s: seq<Timestamped>)
    ensures var uniques := Uniques(l, ParseAll(l, Kept(s)), []);
      && InterpretList(l, s).pending == Fold(l, None, uniques)
      && TwoFolds(l, uniques).2 == RejectedBy(l, None, uniques)
  {
    UniqueActionsSplit(l, s);
    var uniques := Uniques(l, ParseAll(l, Kept(s)), []);
    FoldConcat(l, None, ConfirmedActions(l, s), InState(uniques, PENDING));
  }

  /** The same action, up to what the normalized hash ignores. */
  ghost predicate SameAction(l: Logic, t: Timestamped, copy: Timestamped) {
    && l.parse(DataIn(t)).Some? && l.parse(DataIn(copy)).Some?
    && l.hash(l.parse(DataIn(t)).value) == l.hash(l.parse(DataIn(copy)).value)
  }

  lemma UniquesDropReplay(l: Logic, a: seq<Parsed>, original: Parsed, b: seq<Parsed>, copy: Parsed, c: seq<Parsed>)
    requires l.hash(original.action) == l.hash(copy.action)
    ensures Uniques(l, a + [original] + b + [copy] + c, []) == Uniques(l, a + [original] + b + c, [])
  {
    var before := a + [original] + b;
    UniquesConcat(l, before, c, []);
    UniquesConcat(l, before + [copy], c, []);
    UniquesConcat(l, before, [copy], []);
    SeenGrows(l, before, []);
    assert before[|a|] == original;
    assert [copy][1..] == [];
  }

  /**
   The confirmed state is immune to replays: a further confirmed copy of an action
   that is already confirmed changes nothing, wherever it is inserted after the
   first one.
   */
  lemma ConfirmedStateIgnoresReplays(l: Logic, a: seq<Timestamped>, t: Timestamped, b: seq<Timestamped>,
                                     copy: Timestamped, c: seq<Timestamped>)
    requires t.state == copy.state == CONFIRMED && SameAction(l, t, copy)
    ensures InterpretList(l, a + [t] + b + [copy] + c).confirmed == InterpretList(l, a + [t] + b + c).confirmed
  {
    hide InterpretList, Uniques, Fold;
    var full, short := a + [t] + b + [copy] + c, a + [t] + b + c;
    ConfirmedStateIgnoresPending(l, full);
    ConfirmedStateIgnoresPending(l, short);
    var pa, pb, pc := ConfirmedParsed(l, a), ConfirmedParsed(l, b), ConfirmedParsed(l, c);
    ConfirmedParsedOne(l, t);
    ConfirmedParsedOne(l, copy);
    ConfirmedParsedConcat(l, a, [t]);
    ConfirmedParsedConcat(l, a + [t], b);
    ConfirmedParsedConcat(l, a + [t] + b, [copy]);
    ConfirmedParsedConcat(l, a + [t] + b + [copy], c);
    ConfirmedParsedConcat(l, a + [t] + b, c);
    UniquesDropReplay(l, pa, ParseEntry(l, t).value, pb, ParseEntry(l, copy).value, pc);
  }

  function ConfirmedParsed(l: Logic, s: seq<Timestamped>): seq<Parsed> {
    ParseAll(l, Confirmeds(s))
  }

  lemma ConfirmedParsedConcat(l: Logic, a: seq<Timestamped>, b: seq<Timestamped>)
    ensures ConfirmedParsed(l, a + b) == ConfirmedParsed(l, a) + ConfirmedParsed(l, b)
  {
    ConfirmedsConcat(a, b);
    ParseAllConcat(l, Confirmeds(a), Confirmeds(b));
  }

  lemma ConfirmedParsedOne(l: Logic, t: Timestamped)
    requires t.state == CONFIRMED && ParseEntry(l, t).Some?
    ensures ConfirmedParsed(l, [t]) == [ParseEntry(l, t).value]
  {
    ConfirmedsOne(t);
    assert [t][1..] == [] && ParseAll(l, []) == [];
  }

  // ---------- the two readings agree ----------

  ghost predicate SortedByTime(s: seq<Timestamped>) {
    forall i, j :: 0 <= i < j < |s| ==> s[i].timestamp <= s[j].timestamp
  }

  /** Where a stable insertion puts an entry: after all that are not later, before all that are. */
  lemma {:induction false} InsertSplits(s: seq<Timestamped>, t: Timestamped) returns (k: nat)
    requires SortedByTime(s)
    ensures k <= |s| && InsertByTime(s, t) == s[..k] + [t] + s[k..]
    ensures k > 0 ==> s[k - 1].timestamp <= t.timestamp
    ensures k < |s| ==> s[k].timestamp > t.timestamp
  {
    if s != [] && s[|s| - 1].timestamp > t.timestamp {
      var n := |s| - 1;
      k := InsertSplits(s[..n], t);
      TailOfPrefix(s, k);
    } else {
      k := |s|;
      assert s[..k] == s && s[k..] == [];
    }
  }

  lemma SortedInsertion(s: seq<Timestamped>, t: Timestamped, k: nat)
    requires SortedByTime(s) && k <= |s|
    requires k > 0 ==> s[k - 1].timestamp <= t.timestamp
    requires k < |s| ==> s[k].timestamp > t.timestamp
    ensures SortedByTime(s[..k] + [t] + s[k..])
  {
    var r := s[..k] + [t] + s[k..];
    forall i, j | 0 <= i < j < |r| ensures r[i].timestamp <= r[j].timestamp {
      assert i < k ==> s[i].timestamp <= s[k - 1].timestamp;
      assert j > k ==> s[k].timestamp <= s[j - 1].timestamp;
    }
  }

  lemma {:induction false} SortSorts(s: seq<Timestamped>)
    ensures SortedByTime(SortByTime(s))
  {
    if s != [] {
      var rest, last := s[..|s| - 1], s[|s| - 1];
      SortSorts(rest);
      var k := InsertSplits(SortByTime(rest), last);
      SortedInsertion(SortByTime(rest), last, k);
    }
  }

  lemma {:induction false} InsertAdds(s: seq<Timestamped>, t: Timestamped)
    ensures multiset(InsertByTime(s, t)) == multiset(s) + multiset{t}
  {
    if s != [] && s[|s| - 1].timestamp > t.timestamp {
      var rest := s[..|s| - 1];
      InsertAdds(rest, t);
      assert s == rest + [s[|s| - 1]];
    }
  }

  lemma {:induction false} SortPermutes(s: seq<Timestamped>)
    ensures multiset(SortByTime(s)) == multiset(s)
  {
    if s != [] {
      var rest, last := s[..|s| - 1], s[|s| - 1];
      SortPermutes(rest);
      InsertAdds(SortByTime(rest), last);
      assert s == rest + [last];
    }
  }

  lemma {:induction false} SortedIsUnchanged(s: seq<Timestamped>)
    requires SortedByTime(s)
    ensures SortByTime(s) == s
  {
    if s != [] {
      SortedIsUnchanged(s[..|s| - 1]);
    }
  }

  /** On a channel sorted by timestamp both readings give the same states and the same ignored list. */
  lemma ReadingsAgree(l: Logic, s: seq<Option<Timestamped>>)
    requires SortedByTime(NotNulls(s))
    ensures InterpretById(l, s) == InterpretChannel(l, s)
  {
    SortedIsUnchanged(NotNulls(s));
  }

  /** The position of an entry among the sorted ones that an insertion leaves before the new entry. */
  lemma FindBefore(s: seq<Timestamped>, t: Timestamped, copy: Timestamped, k: nat) returns (j: nat)
    requires SortedByTime(s) && t in multiset(s) && t.timestamp <= copy.timestamp
    requires k <= |s| && (k < |s| ==> s[k].timestamp > copy.timestamp)
    ensures j < k && s[j] == t
    ensures s[..k] == s[..j] + [t] + s[j + 1..k]
    ensures s == s[..j] + [t] + s[j + 1..k] + s[k..]
  {
    j :| 0 <= j < |s| && s[j] == t;
    assert s[..k] == s[..j] + [t] + s[j + 1..k];
  }

  /** Reading by id: a confirmed copy appended to the channel, no earlier than the original, changes no confirmed state. */
  lemma ReplayByIdChangesNothing(l: Logic, s: seq<Timestamped>, i: nat, copy: Timestamped)
    requires i < |s| && s[i].state == copy.state == CONFIRMED && SameAction(l, s[i], copy)
    requires s[i].timestamp <= copy.timestamp
    ensures InterpretList(l, SortByTime(s + [copy])).confirmed == InterpretList(l, SortByTime(s)).confirmed
  {
    hide InterpretList, SameAction, SortedByTime, InsertByTime;
    var sorted, t := SortByTime(s), s[i];
    SortSorts(s);
    SortPermutes(s);
    var k := InsertSplits(sorted, copy);
    var j := FindBefore(sorted, t, copy, k);
    assert (s + [copy])[..|s|] == s;
    var a, b, c := sorted[..j], sorted[j + 1..k], sorted[k..];
    ConfirmedStateIgnoresReplays(l, a, t, b, copy, c);
  }

  // ---------- accounting ----------

  /** The actions that the folds apply. */
  function AppliedBy(l: Logic, state: Option<Request>, ps: seq<Parsed>): seq<Parsed>
    decreases ps
  {
    if ps == [] then []
    else
      match Apply(l, state, ps[0])
      case Ok(next) => [ps[0]] + AppliedBy(l, Some(next), ps[1..])
      case Err(_) => AppliedBy(l, state, ps[1..])
  }

  /** The actions that the folds reject. */
  function RejectedActions(rejected: seq<IgnoredEntry>): seq<Parsed> {
    if rejected == [] then []
    else (if rejected[0].Rejected? then [rejected[0].parsed] else []) + RejectedActions(rejected[1..])
  }

  /** The transactions that parse. */
  function Parsables(l: Logic, s: seq<Timestamped>): seq<Timestamped> {
    if s == [] then [] else (if ParseEntry(l, s[0]).Some? then [s[0]] else []) + Parsables(l, s[1..])
  }

  lemma {:induction false} KeptOrStale(s: seq<Timestamped>)
    ensures multiset(s) == multiset(Kept(s)) + multiset(Stale(s)) && |s| == |Kept(s)| + |Stale(s)|
  {
    if s != [] {
      KeptOrStale(s[1..]);
      assert s == [s[0]] + s[1..];
    }
  }

  lemma {:induction false} ParsedOrNot(l: Logic, s: seq<Timestamped>)
    ensures multiset(s) == multiset(Parsables(l, s)) + multiset(Unparsed(l, s))
    ensures |s| == |Parsables(l, s)| + |Unparsed(l, s)|
  {
    if s != [] {
      ParsedOrNot(l, s[1..]);
      assert s == [s[0]] + s[1..];
    }
  }

  lemma {:induction false} ParsedOneByOne(l: Logic, s: seq<Timestamped>)
    ensures |ParseAll(l, s)| == |Parsables(l, s)|
    ensures forall i :: 0 <= i < |ParseAll(l, s)| ==> ParseEntry(l, Parsables(l, s)[i]) == Some(ParseAll(l, s)[i])
  {
    if s != [] {
      ParsedOneByOne(l, s[1..]);
    }
  }

  lemma {:induction false} UniqueOrDuplicate(l: Logic, ps: seq<Parsed>, seen: seq<string>)
    ensures multiset(ps) == multiset(Uniques(l, ps, seen)) + multiset(Duplicates(l, ps, seen))
    ensures |ps| == |Uniques(l, ps, seen)| + |Duplicates(l, ps, seen)|
    decreases ps
  {
    if ps != [] {
      UniqueOrDuplicate(l, ps[1..], if l.hash(ps[0].action) in seen then seen else seen + [l.hash(ps[0].action)]);
      assert ps == [ps[0]] + ps[1..];
    }
  }

  lemma {:induction false} AppliedOrRejected(l: Logic, state: Option<Request>, ps: seq<Parsed>)
    ensures multiset(ps) == multiset(AppliedBy(l, state, ps)) + multiset(RejectedActions(RejectedBy(l, state, ps)))
    ensures |ps| == |AppliedBy(l, state, ps)| + |RejectedBy(l, state, ps)|
    decreases ps
  {
    if ps != [] {
      assert ps == [ps[0]] + ps[1..];
      match Apply(l, state, ps[0]) {
        case Ok(next) =>
          AppliedOrRejected(l, Some(next), ps[1..]);
        case Err(reason) =>
          AppliedOrRejected(l, state, ps[1..]);
          RejectedCons(Rejected(reason, ps[0]), RejectedBy(l, state, ps[1..]));
      }
    }
  }

  lemma RejectedCons(e: IgnoredEntry, rest: seq<IgnoredEntry>)
    requires e.Rejected?
    ensures RejectedActions([e] + rest) == [e.parsed] + RejectedActions(rest)
  {
    assert ([e] + rest)[1..] == rest;
  }

  lemma {:induction false} OnlyRejections(l: Logic, state: Option<Request>, ps: seq<Parsed>)
    ensures forall i :: 0 <= i < |RejectedBy(l, state, ps)| ==> RejectedBy(l, state, ps)[i].Rejected?
    decreases ps
  {
    if ps != [] {
      match Apply(l, state, ps[0]) {
        case Ok(next) => OnlyRejections(l, Some(next), ps[1..]);
        case Err(_) => OnlyRejections(l, state, ps[1..]);
      }
    }
  }

  /**
   Accounting. Every transaction is stale, or not JSON, or parsed; and every parsed
   action is a replay, or rejected, or applied: once, in exactly one of these. The
   ignored list holds all the others and nothing else, so the counts add up.
   */
  lemma EveryTransactionIsAccountedFor(l: Logic, s: seq<Timestamped>)
    ensures var parsed := ParseAll(l, Kept(s));
      var uniques := Uniques(l, parsed, []);
      var applied, rejected := AppliedBy(l, None, uniques), RejectedBy(l, None, uniques);
      var ignored := InterpretList(l, s).ignored;
      && multiset(s) == multiset(Stale(s)) + multiset(Unparsed(l, Kept(s))) + multiset(Parsables(l, Kept(s)))
      && |parsed| == |Parsables(l, Kept(s))|
      && (forall i :: 0 <= i < |parsed| ==> ParseEntry(l, Parsables(l, Kept(s))[i]) == Some(parsed[i]))
      && (forall i :: 0 <= i < |rejected| ==> rejected[i].Rejected?)
      && multiset(parsed) == multiset(applied) + multiset(Duplicates(l, parsed, [])) + multiset(RejectedActions(rejected))
      && ignored == OlderPendings(Stale(s)) + Unparsables(Unparsed(l, Kept(s))) + Duplicateds(Duplicates(l, parsed, [])) + rejected
      && |s| == |ignored| + |applied|
  {
    var parsed := ParseAll(l, Kept(s));
    KeptOrStale(s);
    ParsedOrNot(l, Kept(s));
    ParsedOneByOne(l, Kept(s));
    OnlyRejections(l, None, Uniques(l, parsed, []));
    UniqueOrDuplicate(l, parsed, []);
    AppliedOrRejected(l, None, Uniques(l, parsed, []));
    TwoFoldsAreOne(l, s);
  }

  /** The pending state is the result of applying exactly the applied actions, none of which fails. */
  lemma {:induction false} AppliedActionsGiveTheState(l: Logic, state: Option<Request>, ps: seq<Parsed>)
    ensures Fold(l, state, AppliedBy(l, state, ps)) == Fold(l, state, ps)
    ensures RejectedBy(l, state, AppliedBy(l, state, ps)) == []
    decreases ps
  {
    if ps != [] {
      match Apply(l, state, ps[0]) {
        case Ok(next) =>
          AppliedActionsGiveTheState(l, Some(next), ps[1..]);
          assert AppliedBy(l, state, ps)[1..] == AppliedBy(l, Some(next), ps[1..]);
        case Err(_) =>
          AppliedActionsGiveTheState(l, state, ps[1..]);
      }
    }
  }

  // ---------- the pending difference ----------

  /** The handlers keep every property of a request and add events at the end, as those of the program do. */
  ghost predicate KeepsAndAppends(l: Logic, v: View) {
    forall r, a, timestamp :: l.apply(Some(r), a, timestamp).Ok? ==>
      PendingDifference.Grows(v.state(r), v.state(l.apply(Some(r), a, timestamp).value))
  }

  lemma {:induction false} FoldGrows(l: Logic, v: View, r: Request, ps: seq<Parsed>)
    requires KeepsAndAppends(l, v)
    ensures var after := Fold(l, Some(r), ps); after.Some? && PendingDifference.Grows(v.state(r), v.state(after.value))
    decreases ps
  {
    if ps != [] {
      match Apply(l, Some(r), ps[0]) {
        case Ok(next) => FoldGrows(l, v, next, ps[1..]);
        case Err(_) => FoldGrows(l, v, r, ps[1..]);
      }
    }
  }

  /**
   What a reader by topic receives is enough: with such handlers, and for any list of
   transactions with a confirmed state, the reported difference applied to the
   confirmed state gives every property of the pending state.
   */
  lemma ReportedDifferenceIsEnough(l: Logic, v: View, s: seq<Timestamped>)
    requires KeepsAndAppends(l, v) && PendingDifference.Injective(v.digest) && InterpretList(l, s).confirmed.Some?
    ensures var i := InterpretList(l, s);
      && i.pending.Some?
      && PendingDifference.Alike(
           PendingDifference.Merge(v.state(i.confirmed.value), ReportOf(v, i).pending), v.state(i.pending.value))
  {
    hide PendingDifference.Alike, PendingDifference.Merge, PendingDifference.Between, PendingDifference.Grows, KeepsAndAppends;
    var i := InterpretList(l, s);
    var uniques := Uniques(l, ParseAll(l, Kept(s)), []);
    FoldGrows(l, v, i.confirmed.value, InState(uniques, PENDING));
    PendingDifference.GrownIsGivenBack(v.digest, v.state(i.confirmed.value), v.state(i.pending.value));
  }
}
