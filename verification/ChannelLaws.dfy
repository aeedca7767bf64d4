/** What cleaning guarantees for an arbitrary log, honest or not. */
module ChannelLaws {
  import opened Wrappers
  import opened TransactionTypes
  import opened Transaction
  import opened TransactionsParser
  import opened ChannelParser

  /** No entry of this prefix of the verdicts is accepted. */
  ghost predicate NoneAccepted(verdicts: seq<Verdict>) {
    forall i :: 0 <= i < |verdicts| ==> verdicts[i].Ignored?
  }

  /** `k` is the position of the first accepted entry. */
  ghost predicate FirstAccepted(verdicts: seq<Verdict>, k: int) {
    0 <= k < |verdicts| && verdicts[k].Accepted? && NoneAccepted(verdicts[..k])
  }

  /** The kind of an entry: clear entries carry data in the open. */
  predicate IsClear(t: Timestamped) {
    Present(t.transaction.data)
  }

  // ---------- one step of the walk ----------

  /** What the verdict on one entry implies, whatever the state of the walk. */
  lemma JudgeFacts(w: World, provider: Provider, channelId: string, key: Option<Params>,
                   channelType: ChannelType, encryptionMethod: Option<string>, t: Timestamped)
    ensures var (verdict, after, afterMethod) := Judge(w, provider, channelId, key, channelType, encryptionMethod, t);
      match verdict
      case Ignored(_, entry) =>
        entry == t && after == channelType && afterMethod == encryptionMethod
      case Accepted(entry) =>
        && entry == AcceptedEntry(t, DataIn(entry))
        && w.digest(DataIn(entry)).Some?
        && after == (if IsClear(t) then CLEAR else ENCRYPTED)
        && (channelType == UNKNOWN ==> w.digest(DataIn(entry)) == Some(channelId))
        && (channelType != UNKNOWN ==> after == channelType && afterMethod == encryptionMethod)
  {
  }

  /** A plain clear entry with JSON data is accepted unchanged, in a clear channel or as its creation. */
  lemma JudgeClearEntry(w: World, provider: Provider, channelId: string, key: Option<Params>, channelType: ChannelType, t: Timestamped)
    requires ValidWorld(w) && t.transaction == ClearPersisted(DataIn(t)) && w.digest(DataIn(t)).Some?
    requires channelType == CLEAR || (channelType == UNKNOWN && w.digest(DataIn(t)) == Some(channelId))
    ensures Judge(w, provider, channelId, key, channelType, None, t) == (Accepted(t), CLEAR, None)
  {
    assert DataIn(t) != "";
  }

  lemma WalkOneEntry(w: World, provider: Provider, channelId: string, key: Option<Params>, t: Timestamped)
    ensures Discover(w, provider, [t]) == DiscoverStep(w, provider, UNDISCOVERED, t.transaction)
    ensures CleanWith(w, provider, channelId, key, [t])
         == var (v, c, m) := Judge(w, provider, channelId, key, UNKNOWN, None, t); Cleaning(c, m, [v])
  {
    assert [t][..0] == [];
  }

  // ---------- alignment ----------

  lemma {:induction false} VerdictsAlign(w: World, provider: Provider, channelId: string, key: Option<Params>, log: Log)
    ensures var verdicts := CleanWith(w, provider, channelId, key, log).verdicts;
      && |verdicts| == |log|
      && forall i :: 0 <= i < |log| ==>
           match verdicts[i]
           case Ignored(_, t) => t == log[i]
           case Accepted(t) => t == AcceptedEntry(log[i], DataIn(t))
  {
    if log != [] {
      var rest := log[..|log| - 1];
      var before := CleanWith(w, provider, channelId, key, rest);
      VerdictsAlign(w, provider, channelId, key, rest);
      JudgeFacts(w, provider, channelId, key, before.channelType, before.encryptionMethod, log[|log| - 1]);
    }
  }

  /**
   The two lists a reader receives are aligned with the log: at each position
   exactly one of them is null; an ignored entry is the entry of the log with the
   reason of its verdict, and an accepted one is that of its verdict, with its own state
   and timestamp.
   */
  lemma ListsAlign(w: World, provider: Provider, channelId: string, log: Log)
    ensures var verdicts := Clean(w, provider, channelId, log).verdicts;
      var valid, ignored := Valids(verdicts), Ignoreds(verdicts);
      && |valid| == |ignored| == |log|
      && forall i :: 0 <= i < |log| ==>
           && (valid[i].None? <==> ignored[i].Some?)
           && (ignored[i].Some? ==> ignored[i].value.transaction == log[i] && verdicts[i] == Ignored(ignored[i].value.reason, log[i]))
           && (valid[i].Some? ==> valid[i].value.state == log[i].state && valid[i].value.timestamp == log[i].timestamp)
           && (valid[i].Some? ==> verdicts[i] == Accepted(valid[i].value))
  {
    VerdictsAlign(w, provider, channelId, Discover(w, provider, log).channelKey, log);
  }

  // ---------- homogeneity ----------

  /** The type and method of a channel created by an entry. */
  function FixedBy(w: World, provider: Provider, channelId: string, key: Option<Params>, t: Timestamped)
    : (ChannelType, Option<string>)
  {
    var (_, channelType, encryptionMethod) := Judge(w, provider, channelId, key, UNKNOWN, None, t);
    (channelType, encryptionMethod)
  }

  /** While no entry is accepted the walk is undecided. */
  lemma {:induction false} WalkUndecided(w: World, provider: Provider, channelId: string, key: Option<Params>, log: Log)
    requires NoneAccepted(CleanWith(w, provider, channelId, key, log).verdicts)
    ensures var c := CleanWith(w, provider, channelId, key, log); c.channelType == UNKNOWN && c.encryptionMethod == None
  {
    if log != [] {
      hide Judge;
      var rest, last := log[..|log| - 1], log[|log| - 1];
      var before, after := CleanWith(w, provider, channelId, key, rest), CleanWith(w, provider, channelId, key, log);
      assert before.verdicts == after.verdicts[..|after.verdicts| - 1];
      WalkUndecided(w, provider, channelId, key, rest);
      JudgeFacts(w, provider, channelId, key, before.channelType, before.encryptionMethod, last);
      assert after.verdicts[|after.verdicts| - 1].Ignored?;
    }
  }

  /** The first accepted entry fixes the state of the walk for good. */
  lemma {:induction false} WalkDecided(w: World, provider: Provider, channelId: string, key: Option<Params>, log: Log, k: nat)
    requires FirstAccepted(CleanWith(w, provider, channelId, key, log).verdicts, k)
    ensures k < |log| && FixedBy(w, provider, channelId, key, log[k]).0 != UNKNOWN
    ensures var c := CleanWith(w, provider, channelId, key, log);
      (c.channelType, c.encryptionMethod) == FixedBy(w, provider, channelId, key, log[k])
  {
    hide Judge;
    VerdictsAlign(w, provider, channelId, key, log);
    var rest, last := log[..|log| - 1], log[|log| - 1];
    VerdictsAlign(w, provider, channelId, key, rest);
    var before, after := CleanWith(w, provider, channelId, key, rest), CleanWith(w, provider, channelId, key, log);
    assert before.verdicts == after.verdicts[..|rest|];
    JudgeFacts(w, provider, channelId, key, before.channelType, before.encryptionMethod, last);
    if k < |rest| {
      assert before.verdicts[..k] == after.verdicts[..k];
      WalkDecided(w, provider, channelId, key, rest, k);
    } else {
      assert after.verdicts[..k] == before.verdicts;
      WalkUndecided(w, provider, channelId, key, rest);
      assert after.verdicts[k].Accepted?;
    }
  }

  lemma {:induction false} CleanPrefix(w: World, provider: Provider, channelId: string, key: Option<Params>, log: Log, n: nat)
    requires n <= |log|
    ensures |CleanWith(w, provider, channelId, key, log).verdicts| == |log|
    ensures CleanWith(w, provider, channelId, key, log[..n]).verdicts == CleanWith(w, provider, channelId, key, log).verdicts[..n]
  {
    VerdictsAlign(w, provider, channelId, key, log);
    if n == |log| {
      assert log[..n] == log;
    } else {
      CleanPrefix(w, provider, channelId, key, log[..|log| - 1], n);
      assert log[..|log| - 1][..n] == log[..n];
    }
  }

  /** The verdict on an entry before any accepted one depends on nothing but that entry. */
  lemma VerdictBeforeFirst(w: World, provider: Provider, channelId: string, key: Option<Params>, log: Log, i: nat)
    requires i < |log| == |CleanWith(w, provider, channelId, key, log).verdicts|
    requires NoneAccepted(CleanWith(w, provider, channelId, key, log).verdicts[..i])
    ensures CleanWith(w, provider, channelId, key, log).verdicts[i]
         == Judge(w, provider, channelId, key, UNKNOWN, None, log[i]).0
  {
    hide Judge;
    StepAt(w, provider, channelId, key, log, i);
    CleanPrefix(w, provider, channelId, key, log, i);
    WalkUndecided(w, provider, channelId, key, log[..i]);
  }

  /** The verdict on an entry after the first accepted one depends on those two entries only. */
  lemma VerdictAfterFirst(w: World, provider: Provider, channelId: string, key: Option<Params>, log: Log, k: nat, i: nat)
    requires k < i < |log| == |CleanWith(w, provider, channelId, key, log).verdicts|
    requires FirstAccepted(CleanWith(w, provider, channelId, key, log).verdicts, k)
    ensures var (channelType, encryptionMethod) := FixedBy(w, provider, channelId, key, log[k]);
      && channelType != UNKNOWN
      && CleanWith(w, provider, channelId, key, log).verdicts[i]
           == Judge(w, provider, channelId, key, channelType, encryptionMethod, log[i]).0
  {
    hide Judge;
    StepAt(w, provider, channelId, key, log, i);
    CleanPrefix(w, provider, channelId, key, log, i);
    var all := CleanWith(w, provider, channelId, key, log).verdicts;
    assert all[..i][..k] == all[..k];
    WalkDecided(w, provider, channelId, key, log[..i], k);
  }

  lemma StepAt(w: World, provider: Provider, channelId: string, key: Option<Params>, log: Log, i: nat)
    requires i < |log| == |CleanWith(w, provider, channelId, key, log).verdicts|
    ensures var before := CleanWith(w, provider, channelId, key, log[..i]);
      CleanWith(w, provider, channelId, key, log).verdicts[i]
        == Judge(w, provider, channelId, key, before.channelType, before.encryptionMethod, log[i]).0
  {
    hide Judge;
    CleanPrefix(w, provider, channelId, key, log, i);
    CleanPrefix(w, provider, channelId, key, log, i + 1);
    var upTo, all := log[..i + 1], CleanWith(w, provider, channelId, key, log).verdicts;
    assert upTo[..i] == log[..i] && upTo[i] == log[i];
    assert all[i] == all[..i + 1][i];
  }

  /**
   Whatever a log holds: the data of the first accepted entry hashes to the
   channel id, every accepted entry is of the same kind as the first, and all
   accepted data is JSON.
   */
  lemma AcceptedEntriesAreHomogeneous(w: World, provider: Provider, channelId: string, log: Log, k: nat, i: nat)
    requires FirstAccepted(Clean(w, provider, channelId, log).verdicts, k)
    requires i < |log| && |Clean(w, provider, channelId, log).verdicts| == |log|
    requires Clean(w, provider, channelId, log).verdicts[i].Accepted?
    ensures var verdicts := Clean(w, provider, channelId, log).verdicts;
      && k <= i
      && w.digest(DataIn(verdicts[k].entry)) == Some(channelId)
      && w.digest(DataIn(verdicts[i].entry)).Some?
      && IsClear(log[i]) == IsClear(log[k])
  {
    var key := Discover(w, provider, log).channelKey;
    var verdicts := Clean(w, provider, channelId, log).verdicts;
    VerdictsAlign(w, provider, channelId, key, log);
    assert forall j :: 0 <= j < k ==> verdicts[j] == verdicts[..k][j];
    VerdictBeforeFirst(w, provider, channelId, key, log, k);
    JudgeFacts(w, provider, channelId, key, UNKNOWN, None, log[k]);
    if k < i {
      VerdictAfterFirst(w, provider, channelId, key, log, k, i);
      var (channelType, encryptionMethod) := FixedBy(w, provider, channelId, key, log[k]);
      JudgeFacts(w, provider, channelId, key, channelType, encryptionMethod, log[i]);
    }
  }

  // ---------- non-interference ----------

  /** The reader accepts this entry as the creation of the channel. */
  ghost predicate Opens(w: World, provider: Provider, channelId: string, creation: Timestamped) {
    var verdicts := Clean(w, provider, channelId, [creation]).verdicts;
    |verdicts| == 1 && verdicts[0].Accepted?
  }

  /** The verdict on a later entry, from the creation and that entry alone. */
  function LaterVerdict(w: World, provider: Provider, channelId: string, creation: Timestamped, t: Timestamped): Verdict {
    var key := Discover(w, provider, [creation]).channelKey;
    var (channelType, encryptionMethod) := FixedBy(w, provider, channelId, key, creation);
    Judge(w, provider, channelId, key, channelType, encryptionMethod, t).0
  }

  function LaterVerdicts(w: World, provider: Provider, channelId: string, creation: Timestamped, rest: Log): seq<Verdict> {
    seq(|rest|, i requires 0 <= i < |rest| => LaterVerdict(w, provider, channelId, creation, rest[i]))
  }

  lemma {:induction false} DiscoverySettles(w: World, provider: Provider, creation: Timestamped, rest: Log)
    requires var d := Discover(w, provider, [creation]); d.channelType == CLEAR || d.channelKey.Some?
    ensures Discover(w, provider, [creation] + rest) == Discover(w, provider, [creation])
  {
    var log := [creation] + rest;
    if rest == [] {
      assert log == [creation];
    } else {
      DiscoverySettles(w, provider, creation, rest[..|rest| - 1]);
      assert log[..|log| - 1] == [creation] + rest[..|rest| - 1];
    }
  }

  lemma OpenedCreationSettles(w: World, provider: Provider, channelId: string, creation: Timestamped)
    requires Opens(w, provider, channelId, creation)
    ensures var d := Discover(w, provider, [creation]); d.channelType == CLEAR || d.channelKey.Some?
  {
    WalkOneEntry(w, provider, channelId, Discover(w, provider, [creation]).channelKey, creation);
  }

  /** In a channel whose creation the reader opens, every verdict is fixed by the creation and the entry judged. */
  lemma VerdictsAfterOpenableCreation(w: World, provider: Provider, channelId: string, creation: Timestamped, rest: Log)
    requires Opens(w, provider, channelId, creation)
    ensures Clean(w, provider, channelId, [creation] + rest).verdicts
         == Clean(w, provider, channelId, [creation]).verdicts + LaterVerdicts(w, provider, channelId, creation, rest)
  {
    hide Judge, DiscoverStep, ParsePersisted;
    var log, key := [creation] + rest, Discover(w, provider, [creation]).channelKey;
    WalkOneEntry(w, provider, channelId, key, creation);
    OpenedCreationSettles(w, provider, channelId, creation);
    DiscoverySettles(w, provider, creation, rest);
    var all := Clean(w, provider, channelId, log).verdicts;
    CleanPrefix(w, provider, channelId, key, log, 1);
    assert log[..1] == [creation];
    assert all[0] == all[..1][0] && all[..0] == [];
    assert FirstAccepted(all, 0);
    forall i | 0 <= i < |rest| ensures all[i + 1] == LaterVerdict(w, provider, channelId, creation, rest[i]) {
      VerdictAfterFirst(w, provider, channelId, key, log, 0, i + 1);
    }
  }

  /**
   Noise does not interfere: inserting any entries after a creation the reader
   opens changes the verdict of no other entry.
   */
  lemma NoiseDoesNotInterfere(w: World, provider: Provider, channelId: string, creation: Timestamped,
                              before: Log, noise: Log, after: Log)
    requires Opens(w, provider, channelId, creation)
    ensures var quiet := Clean(w, provider, channelId, [creation] + before + after).verdicts;
      var noisy := Clean(w, provider, channelId, [creation] + before + noise + after).verdicts;
      var n := 1 + |before|;
      && |quiet| == n + |after| && |noisy| == n + |noise| + |after|
      && noisy[..n] == quiet[..n]
      && noisy[n + |noise|..] == quiet[n..]
  {
    hide Clean, LaterVerdict;
    assert [creation] + before + after == [creation] + (before + after);
    assert [creation] + before + noise + after == [creation] + (before + noise + after);
    VerdictsAfterOpenableCreation(w, provider, channelId, creation, before + after);
    VerdictsAfterOpenableCreation(w, provider, channelId, creation, before + noise + after);
  }

  // ---------- cleaning preserves meaning ----------

  /** A log of plain clear transactions with JSON data, the first of which hashes to the channel id. */
  ghost predicate ClearChannel(w: World, channelId: string, log: Log) {
    && (forall i :: 0 <= i < |log| ==>
          && log[i].transaction == ClearPersisted(DataIn(log[i]))
          && w.digest(DataIn(log[i])).Some?)
    && (log != [] ==> w.digest(DataIn(log[0])) == Some(channelId))
  }

  lemma {:induction false} AcceptedEntriesFormAClearChannel(w: World, provider: Provider, channelId: string,
                                                            key: Option<Params>, log: Log)
    ensures var c := CleanWith(w, provider, channelId, key, log);
      && ClearChannel(w, channelId, AcceptedOf(c.verdicts))
      && (AcceptedOf(c.verdicts) == [] <==> c.channelType == UNKNOWN)
  {
    hide Judge;
    if log != [] {
      var rest := log[..|log| - 1];
      AcceptedEntriesFormAClearChannel(w, provider, channelId, key, rest);
      var before, after := CleanWith(w, provider, channelId, key, rest), CleanWith(w, provider, channelId, key, log);
      assert after.verdicts[..|after.verdicts| - 1] == before.verdicts;
      JudgeFacts(w, provider, channelId, key, before.channelType, before.encryptionMethod, log[|log| - 1]);
    }
  }

  function AllAccepted(log: Log): seq<Verdict> {
    if log == [] then [] else AllAccepted(log[..|log| - 1]) + [Accepted(log[|log| - 1])]
  }

  lemma {:induction false} AllAcceptedIsEverything(log: Log)
    ensures |AllAccepted(log)| == |log| && AcceptedOf(AllAccepted(log)) == log
    ensures forall i :: 0 <= i < |log| ==> AllAccepted(log)[i] == Accepted(log[i])
  {
    if log != [] {
      var rest := log[..|log| - 1];
      AllAcceptedIsEverything(rest);
      assert AllAccepted(log)[..|log| - 1] == AllAccepted(rest);
    }
  }

  lemma ClearPrefix(w: World, channelId: string, log: Log)
    requires ClearChannel(w, channelId, log) && log != []
    ensures ClearChannel(w, channelId, log[..|log| - 1])
  {
  }

  lemma {:induction false} ClearChannelIsAccepted(w: World, provider: Provider, channelId: string, key: Option<Params>, log: Log)
    requires ValidWorld(w) && ClearChannel(w, channelId, log)
    ensures CleanWith(w, provider, channelId, key, log)
         == Cleaning(if log == [] then UNKNOWN else CLEAR, None, AllAccepted(log))
  {
    hide Judge;
    if log != [] {
      var rest, last := log[..|log| - 1], log[|log| - 1];
      ClearPrefix(w, channelId, log);
      ClearChannelIsAccepted(w, provider, channelId, key, rest);
      JudgeClearEntry(w, provider, channelId, key, if rest == [] then UNKNOWN else CLEAR, last);
    }
  }

  /**
   Cleaning preserves meaning and is idempotent: the accepted data of any log,
   written again as clear transactions of the same channel, is accepted in full
   and unchanged by every reader, with or without a decryption provider.
   */
  lemma CleaningIsIdempotent(w: World, author: Provider, reader: Provider, channelId: string, log: Log)
    requires ValidWorld(w)
    ensures var accepted := AcceptedOf(Clean(w, author, channelId, log).verdicts);
      var again := Clean(w, reader, channelId, accepted);
      && |again.verdicts| == |accepted|
      && (forall i :: 0 <= i < |accepted| ==> again.verdicts[i] == Accepted(accepted[i]))
      && AcceptedOf(again.verdicts) == accepted
      && again.encryptionMethod == None
  {
    var accepted := AcceptedOf(Clean(w, author, channelId, log).verdicts);
    AcceptedEntriesFormAClearChannel(w, author, channelId, Discover(w, author, log).channelKey, log);
    ClearChannelIsAccepted(w, reader, channelId, Discover(w, reader, accepted).channelKey, accepted);
    AllAcceptedIsEverything(accepted);
  }
}
