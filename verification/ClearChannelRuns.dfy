/** Whole runs of a channel created in clear: any writers, with or without a decryption provider, any parameters. */
module ClearChannelRuns {
  import opened Wrappers
  import opened TransactionTypes
  import opened Transaction
  import opened TransactionsParser
  import opened ChannelParser
  import opened ChannelLaws
  import opened TransactionManager
  import opened ChannelRuns

  predicate CreatesInClear(w: World, channelId: string, op: Op) {
    Recreates(w, channelId, op) && op.params == []
  }

  /** The data of some operations that a clear channel holds in clear: all JSON data, but the creation data sealed again. */
  function Submitted(w: World, channelId: string, ops: seq<Op>): seq<string> {
    if ops == [] then []
    else
      var before, op := Submitted(w, channelId, ops[..|ops| - 1]), ops[|ops| - 1];
      if w.digest(op.data).None? || (w.digest(op.data) == Some(channelId) && op.params != []) then before else before + [op.data]
  }

  /** The data that the entries of a log carry in clear, in order. */
  function ClearData(w: World, log: Log): seq<string> {
    if log == [] then []
    else
      var before, tx := ClearData(w, log[..|log| - 1]), log[|log| - 1].transaction;
      if IsClearEntry(w, tx) then before + [tx.data.value] else before
  }

  predicate ClearShape(w: World, tx: Persisted) {
    IsClearEntry(w, tx) || IsSealedRecreation(tx)
  }

  ghost predicate ClearInv(w: World, channelId: string, log: Log) {
    && log != [] && IsClearEntry(w, log[0].transaction) && w.digest(log[0].transaction.data.value) == Some(channelId)
    && forall i :: 0 <= i < |log| ==> ClearShape(w, log[i].transaction)
  }

  lemma ClearInvPrefix(w: World, channelId: string, log: Log)
    requires ClearInv(w, channelId, log) && |log| > 1
    ensures ClearInv(w, channelId, log[..|log| - 1]) && ClearShape(w, log[|log| - 1].transaction)
  {
  }

  /** Every reader, with or without a provider, finds that the channel is clear. */
  lemma {:induction false} DiscoveryFindsClear(w: World, provider: Provider, channelId: string, log: Log)
    requires ValidWorld(w) && ClearInv(w, channelId, log)
    ensures Discover(w, provider, log) == Discovery(CLEAR, None, None)
  {
    var rest, tx := log[..|log| - 1], log[|log| - 1].transaction;
    if rest == [] {
      assert Discover(w, provider, rest) == UNDISCOVERED;
      assert tx.data.value != "";
    } else {
      ClearInvPrefix(w, channelId, log);
      DiscoveryFindsClear(w, provider, channelId, rest);
      SettledStays(w, provider, Discovery(CLEAR, None, None), tx);
    }
  }

  /**
   In a channel of that shape an append of JSON data by ANY writer, with any parameters,
   succeeds, adds exactly the data in clear, and reports no encryption method.
   */
  lemma AnyoneAppendsInClear(w: World, channelId: string, log: Log, op: Op)
    requires ValidWorld(w) && ClearInv(w, channelId, log)
    requires w.digest(op.data).Some? && w.digest(op.data) != Some(channelId)
    ensures Persist(w, op.writer, log, op.data, channelId, op.params, op.freshKey) == Ok(Write(ClearPersisted(op.data), None))
  {
    hide ClearInv, Discover;
    DiscoveryFindsClear(w, op.writer, channelId, log);
  }

  lemma ClearDataSnoc(w: World, log: Log, t: Timestamped)
    ensures ClearData(w, log + [t]) == ClearData(w, log) + (if IsClearEntry(w, t.transaction) then [t.transaction.data.value] else [])
  {
    assert (log + [t])[..|log|] == log;
  }

  lemma ClearInvSnoc(w: World, channelId: string, log: Log, t: Timestamped)
    requires ClearInv(w, channelId, log) && ClearShape(w, t.transaction)
    ensures ClearInv(w, channelId, log + [t])
  {
    hide ClearShape, IsClearEntry;
  }

  /** One write by anyone. */
  lemma StepInClear(w: World, channelId: string, c: Channel, op: Op)
    requires ValidWorld(w) && ClearInv(w, channelId, c.log)
    ensures var after := Step(w, channelId, c, op);
      && ClearInv(w, channelId, after.log)
      && ClearData(w, after.log) == ClearData(w, c.log) + Submitted(w, channelId, [op])
  {
    hide ClearInv, Persist, ClearData, Step;
    StepAddsOne(w, channelId, c, op);
    assert [op][..0] == [] && Submitted(w, channelId, []) == [];
    var outcome := Persist(w, op.writer, c.log, op.data, channelId, op.params, op.freshKey);
    NotJsonThrows(w, op.writer, c.log, op.data, channelId, op.params, op.freshKey);
    if outcome.Ok? {
      var t := Timestamped(PENDING, op.now, outcome.value.transaction);
      if Recreates(w, channelId, op) {
        RecreationShape(w, channelId, c.log, op);
      } else {
        AnyoneAppendsInClear(w, channelId, c.log, op);
      }
      ClearInvSnoc(w, channelId, c.log, t);
      ClearDataSnoc(w, c.log, t);
    } else if w.digest(op.data).Some? {
      if Recreates(w, channelId, op) {
        ClearRecreationSucceeds(w, channelId, c.log, op);
      } else {
        AnyoneAppendsInClear(w, channelId, c.log, op);
      }
    }
  }

  /** Data that is not JSON is never written. */
  lemma NotJsonThrows(w: World, provider: Provider, log: Log, data: string, channelId: string, params: seq<Params>, freshKey: string)
    ensures w.digest(data).None? ==> Persist(w, provider, log, data, channelId, params, freshKey) == Err(NotJson)
  {
  }

  lemma SubmittedSnoc(w: World, channelId: string, ops: seq<Op>, op: Op)
    ensures Submitted(w, channelId, ops + [op]) == Submitted(w, channelId, ops) + Submitted(w, channelId, [op])
  {
    assert (ops + [op])[..|ops|] == ops && [op][..0] == [];
  }

  lemma ClearStart(w: World, channelId: string, first: Op)
    requires ValidWorld(w) && CreatesInClear(w, channelId, first)
    ensures var start := Step(w, channelId, Channel([], []), first);
      ClearInv(w, channelId, start.log) && ClearData(w, start.log) == [first.data]
  {
    hide ClearData;
    StepAddsOne(w, channelId, Channel([], []), first);
    var t := Timestamped(PENDING, first.now, ClearPersisted(first.data));
    assert Step(w, channelId, Channel([], []), first).log == [] + [t] == [t];
    ClearDataSnoc(w, [], t);
    NoClearData(w);
  }

  lemma NothingSubmitted(w: World, channelId: string)
    ensures Submitted(w, channelId, []) == []
  {
  }

  lemma NoClearData(w: World)
    ensures ClearData(w, []) == []
  {
  }

  /** Every run of a channel created in clear holds all its JSON data in clear, in order. */
  lemma {:induction false} ClearRun(w: World, channelId: string, first: Op, ops: seq<Op>)
    requires ValidWorld(w) && CreatesInClear(w, channelId, first)
    ensures var end := RunFrom(w, channelId, first, ops);
      ClearInv(w, channelId, end.log) && ClearData(w, end.log) == [first.data] + Submitted(w, channelId, ops)
  {
    hide Step, ClearInv, ClearData, Submitted, Recreates;
    if ops == [] {
      ClearStart(w, channelId, first);
      NothingSubmitted(w, channelId);
      assert [first.data] + [] == [first.data];
    } else {
      var rest, last := ops[..|ops| - 1], ops[|ops| - 1];
      ClearRun(w, channelId, first, rest);
      StepInClear(w, channelId, RunFrom(w, channelId, first, rest), last);
      SubmittedSnoc(w, channelId, rest, last);
      assert ops == rest + [last];
      assert ([first.data] + Submitted(w, channelId, rest)) + Submitted(w, channelId, [last])
        == [first.data] + (Submitted(w, channelId, rest) + Submitted(w, channelId, [last]));
    }
  }

  /** The verdicts accept exactly the clear entries, unchanged. */
  ghost predicate AcceptsClear(w: World, verdicts: seq<Verdict>, log: Log) {
    && |verdicts| == |log|
    && forall i :: 0 <= i < |log| ==>
      if IsClearEntry(w, log[i].transaction) then verdicts[i] == Accepted(log[i]) else verdicts[i].Ignored?
  }

  lemma JudgeInClear(w: World, provider: Provider, channelId: string, t: Timestamped, channelType: ChannelType)
    requires ValidWorld(w) && ClearShape(w, t.transaction)
    requires channelType == CLEAR || (channelType == UNKNOWN && IsClearEntry(w, t.transaction)
      && w.digest(t.transaction.data.value) == Some(channelId))
    ensures var (v, c, m) := Judge(w, provider, channelId, None, channelType, None, t);
      && c == CLEAR && m == None
      && (if IsClearEntry(w, t.transaction) then v == Accepted(t) else v.Ignored?)
  {
    if IsClearEntry(w, t.transaction) {
      assert t.transaction.data.value != "";
    }
  }

  lemma {:induction false} CleaningInClear(w: World, provider: Provider, channelId: string, log: Log)
    requires ValidWorld(w) && ClearInv(w, channelId, log)
    ensures var c := CleanWith(w, provider, channelId, None, log);
      c.channelType == CLEAR && c.encryptionMethod == None && AcceptsClear(w, c.verdicts, log)
  {
    hide Judge, IsClearEntry, ClearShape;
    var rest, last := log[..|log| - 1], log[|log| - 1];
    if rest == [] {
      assert CleanWith(w, provider, channelId, None, rest) == Cleaning(UNKNOWN, None, []);
      JudgeInClear(w, provider, channelId, last, UNKNOWN);
    } else {
      ClearInvPrefix(w, channelId, log);
      CleaningInClear(w, provider, channelId, rest);
      JudgeInClear(w, provider, channelId, last, CLEAR);
    }
  }

  lemma {:induction false} AcceptedClearData(w: World, verdicts: seq<Verdict>, log: Log)
    requires AcceptsClear(w, verdicts, log)
    ensures DataRead(verdicts) == ClearData(w, log)
  {
    if log != [] {
      var n := |log| - 1;
      assert forall i :: 0 <= i < n ==> verdicts[..n][i] == verdicts[i] && log[..n][i] == log[i];
      AcceptedClearData(w, verdicts[..n], log[..n]);
    }
  }

  /**
   Round trip over all runs of a channel created in clear: every reader, with or without
   a provider, reads back all the JSON data that anyone has written, in order, with no
   encryption method. Only the creation data sealed again is ignored.
   */
  lemma EveryoneReadsAClearChannel(w: World, channelId: string, first: Op, ops: seq<Op>, reader: Provider)
    requires ValidWorld(w) && CreatesInClear(w, channelId, first)
    ensures var log := RunFrom(w, channelId, first, ops).log;
      var cleaned := Clean(w, reader, channelId, log);
      && DataRead(cleaned.verdicts) == [first.data] + Submitted(w, channelId, ops)
      && cleaned.encryptionMethod == None
      && |cleaned.verdicts| == |log|
      && (forall i :: 0 <= i < |log| ==>
            if log[i].transaction.data.Some? then cleaned.verdicts[i] == Accepted(log[i]) else cleaned.verdicts[i].Ignored?)
  {
    hide Step, ClearData, Submitted, Discover, CleanWith;
    var log := RunFrom(w, channelId, first, ops).log;
    ClearRun(w, channelId, first, ops);
    DiscoveryFindsClear(w, reader, channelId, log);
    CleaningInClear(w, reader, channelId, log);
    AcceptedClearData(w, Clean(w, reader, channelId, log).verdicts, log);
    forall i | 0 <= i < |log| ensures IsClearEntry(w, log[i].transaction) <==> log[i].transaction.data.Some? {
      assert ClearShape(w, log[i].transaction);
    }
  }

  /** Any writer appends to a clear channel, after any run: the entry holds the data in clear. */
  lemma EveryoneWritesToAClearChannel(w: World, channelId: string, first: Op, ops: seq<Op>, op: Op)
    requires ValidWorld(w) && CreatesInClear(w, channelId, first)
    requires w.digest(op.data).Some? && w.digest(op.data) != Some(channelId)
    ensures var log := RunFrom(w, channelId, first, ops).log;
      && Persist(w, op.writer, log, op.data, channelId, op.params, op.freshKey) == Ok(Write(ClearPersisted(op.data), None))
      && RunFrom(w, channelId, first, ops + [op]).log == log + [Timestamped(PENDING, op.now, ClearPersisted(op.data))]
  {
    hide Persist, Step;
    var start := Step(w, channelId, Channel([], []), first);
    var c := RunFrom(w, channelId, first, ops);
    ClearRun(w, channelId, first, ops);
    AnyoneAppendsInClear(w, channelId, c.log, op);
    StepAddsOne(w, channelId, c, op);
    RunConcat(w, channelId, start, ops, [op]);
    RunOne(w, channelId, c, op);
  }

  predicate IsSealOf(tx: Persisted, data: string) {
    tx.encryptedData.Some? && tx.encryptedData.value.Sealed? && tx.encryptedData.value.plain == data
  }

  /**
   What a writer is told, after any run of either kind of channel and for a creation as
   well: the encryption method iff the data was sealed, and none when it is in clear.
   */
  lemma WriterIsToldTheMethod(w: World, channelId: string, first: Op, ops: seq<Op>, op: Op)
    requires ValidWorld(w) && (CreatesEncrypted(w, channelId, first) || CreatesInClear(w, channelId, first))
    ensures var log := RunFrom(w, channelId, first, ops).log;
      match Persist(w, op.writer, log, op.data, channelId, op.params, op.freshKey)
      case Err(_) => true
      case Ok(write) =>
        if write.transaction.data.Some?
        then write.transaction == ClearPersisted(op.data) && write.encryptionMethod == None
        else write.encryptionMethod == Some(GCM_METHOD) && IsSealOf(write.transaction, op.data)
  {
    hide RunFrom, CreatesEncrypted, Inv, ClearInv, Discover, NoClearEntry;
    var log := RunFrom(w, channelId, first, ops).log;
    if CreatesInClear(w, channelId, first) {
      ClearRun(w, channelId, first, ops);
      DiscoveryFindsClear(w, op.writer, channelId, log);
    } else {
      RunKeepsInv(w, channelId, first, ops);
      if op.writer.Some? {
        DiscoveryFindsTheChannelKey(w, channelId, first.freshKey, log, op.writer.value);
      } else {
        DiscoveryWithoutProvider(w, channelId, first.freshKey, log);
      }
    }
  }

  /** Which parameters a creation takes: any list of ECIES keys; with another algorithm in it nothing is written. */
  lemma CreationTakesEciesKeys(w: World, channelId: string, log: Log, op: Op)
    requires w.digest(op.data) == Some(channelId)
    ensures var outcome := Persist(w, op.writer, log, op.data, channelId, op.params, op.freshKey);
      && (outcome.Ok? <==> forall i :: 0 <= i < |op.params| ==> op.params[i].algorithm == ECIES)
      && (outcome.Err? ==> outcome.error == ParamsMustBeEcies)
  {
  }
}
