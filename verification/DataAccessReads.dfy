/** What a reader gets back, field by field, and what the index of topics holds, over every run. */
module DataAccessReads {
  import opened Sequences
  import opened Wrappers
  import opened TransactionTypes
  import opened DataAccess
  import opened DataAccessRuns
  import Block
  import ChannelParser
  import TransactionManager

  // ---------- fields ----------

  /** A text that is empty is read as absent. */
  function EmptyIsAbsent(s: Option<string>): Option<string> {
    if s == Some("") then None else s
  }

  /** So is a ciphertext; the keys are read as they are. */
  predicate ReadBack(read: Persisted, written: Persisted) {
    && read.data == EmptyIsAbsent(written.data)
    && read.encryptedData == (if written.encryptedData == Some(Noise("")) then None else written.encryptedData)
    && read.keys == written.keys
    && read.encryptionMethod == EmptyIsAbsent(written.encryptionMethod)
  }

  /**
   The fields that a read returns, in every run: the keys of each confirmed entry, and
   its other fields unless they are empty; and the pending entry as it was written.
   */
  lemma FieldsAreRead(locate: Locate, ops: seq<Op>, c: string)
    ensures var r := ExecAll(locate, ops);
      var mine := InChannel(r.log, c);
      var (reading, _) := ReadStep(r.state, c);
      && (forall e :: e in mine ==> e.id in r.stored)
      && (reading.Ok? ==>
            var confirmed, pending := ConfirmedOf(r.state.data, Visible(r.stored, mine, c)), Remembered(r.state, mine, c);
            FieldsOf(reading.value, confirmed, pending))
  {
    hide ExecAll, ReadStep, IsConfirmed, InChannel, ConfirmedOf, Visible, Remembered, AllReadable;
    var r := ExecAll(locate, ops);
    var mine := InChannel(r.log, c);
    ReadReturns(locate, ops, c);
    EntriesAreRead(ConfirmedOf(r.state.data, Visible(r.stored, mine, c)), Remembered(r.state, mine, c));
  }

  /** The reading has these entries, in order. */
  predicate FieldsOf(reading: Reading, confirmed: Log, pending: Log) {
    && |reading.transactions| == |reading.locations| == |confirmed| + |pending|
    && (forall i :: 0 <= i < |confirmed| ==> IsConfirmedEntry(reading.transactions[i], reading.locations[i], confirmed[i]))
    && (forall i :: 0 <= i < |pending| ==>
          IsPendingEntry(reading.transactions[|confirmed| + i], reading.locations[|confirmed| + i], pending[i]))
  }

  predicate IsConfirmedEntry(t: Timestamped, location: string, e: LogEntry) {
    t.state == CONFIRMED && t.timestamp == 0 && ReadBack(t.transaction, e.transaction) && location == e.id
  }

  predicate IsPendingEntry(t: Timestamped, location: string, e: LogEntry) {
    t.state == PENDING && t.timestamp == e.timestamp && t.transaction == e.transaction && location == e.id
  }

  lemma EntriesAreRead(confirmed: Log, pending: Log)
    ensures FieldsOf(ReadingOf(confirmed, pending), confirmed, pending)
  {
  }

  /**
   A reader cannot tell two entries apart iff they are of one channel, with equal keys
   and fields that differ at most in being empty or absent.
   */
  lemma ReadsAsIff(f: LogEntry, e: LogEntry)
    ensures ReadsAs(f, e) <==>
      && f.channelId == e.channelId && f.transaction.keys == e.transaction.keys
      && EmptyIsAbsent(f.transaction.data) == EmptyIsAbsent(e.transaction.data)
      && EmptyIsAbsent(f.transaction.encryptionMethod) == EmptyIsAbsent(e.transaction.encryptionMethod)
      && (f.transaction.encryptedData == e.transaction.encryptedData
          || (!HasCipher(f.transaction.encryptedData) && !HasCipher(e.transaction.encryptedData)))
  {
  }

  // ---------- from the writer to the reader ----------

  /** The transaction is what some writer of an encrypted or clear channel adds to some log. */
  ghost predicate WrittenBySomeone(w: World, tx: Persisted) {
    exists provider, log, data, channelId, params, freshKey, told ::
      TransactionManager.Persist(w, provider, log, data, channelId, params, freshKey) == Ok(TransactionManager.Write(tx, told))
  }

  predicate NoEmptyField(tx: Persisted) {
    && tx.data != Some("") && tx.encryptedData != Some(Noise("")) && tx.encryptionMethod != Some("")
    && (tx.data.Some? || tx.encryptedData.Some?)
  }

  lemma WritesNoEmptyField(w: World, provider: Provider, log: ChannelParser.Log, data: string, channelId: string, params: seq<Params>,
                           freshKey: string, write: TransactionManager.Write)
    requires ValidWorld(w)
    requires TransactionManager.Persist(w, provider, log, data, channelId, params, freshKey) == Ok(write)
    ensures NoEmptyField(write.transaction)
  {
    hide ChannelParser.Discover, TransactionManager.KeysOf, TransactionManager.AllEcies;
    assert data != "" && GCM_METHOD != "";
  }

  /** What a writer adds has no empty field, so that reading it changes nothing. */
  lemma WrittenHasNoEmptyField(w: World, tx: Persisted, read: Persisted)
    requires ValidWorld(w) && WrittenBySomeone(w, tx) && ReadBack(read, tx)
    ensures read == tx && Block.HasPayload(tx)
  {
    hide TransactionManager.Persist;
    var provider, log, data, channelId, params, freshKey, told :|
      TransactionManager.Persist(w, provider, log, data, channelId, params, freshKey) == Ok(TransactionManager.Write(tx, told));
    WritesNoEmptyField(w, provider, log, data, channelId, params, freshKey, TransactionManager.Write(tx, told));
  }

  /** Every transaction of a reading is that of its entry, unchanged. */
  predicate Unchanged(reading: Reading, confirmed: Log, pending: Log) {
    && |reading.transactions| == |confirmed| + |pending|
    && (forall i :: 0 <= i < |confirmed| ==> reading.transactions[i] == Timestamped(CONFIRMED, 0, confirmed[i].transaction))
    && (forall i :: 0 <= i < |pending| ==>
          reading.transactions[|confirmed| + i] == Timestamped(PENDING, pending[i].timestamp, pending[i].transaction))
  }

  /**
   The round trip through the storage. When the transactions of a channel are what
   writers make, and no two different documents have one id, a read gives back each
   confirmed one unchanged, in persist order, and then the latest if it is pending.
   */
  lemma WrittenTransactionsComeBack(w: World, locate: Locate, ops: seq<Op>, c: string)
    requires ValidWorld(w) && OneDocumentPerId(ExecAll(locate, ops).log)
    requires forall e :: e in InChannel(ExecAll(locate, ops).log, c) ==> WrittenBySomeone(w, e.transaction)
    ensures var r := ExecAll(locate, ops);
      var mine := InChannel(r.log, c);
      var (reading, _) := ReadStep(r.state, c);
      reading.Ok? ==> Unchanged(reading.value, ConfirmedOf(r.state.data, mine), LatestPending(r.state.data, mine))
  {
    hide ExecAll, ReadStep, IsConfirmed, InChannel, AllReadable, WrittenBySomeone, OneDocumentPerId, ReadingOf, ReadBack;
    var r := ExecAll(locate, ops);
    var mine := InChannel(r.log, c);
    var (reading, _) := ReadStep(r.state, c);
    ReadAgreesWithLog(locate, ops, c);
    if reading.Ok? {
      var confirmed, pending := ConfirmedOf(r.state.data, mine), LatestPending(r.state.data, mine);
      EntriesAreRead(confirmed, pending);
      ConfirmedMembers(r.state.data, mine);
      forall i | 0 <= i < |confirmed| ensures reading.value.transactions[i] == Timestamped(CONFIRMED, 0, confirmed[i].transaction) {
        assert IsConfirmedEntry(reading.value.transactions[i], reading.value.locations[i], confirmed[i]);
        WrittenHasNoEmptyField(w, confirmed[i].transaction, reading.value.transactions[i].transaction);
      }
    }
  }

  lemma {:induction false} ConfirmedAll(data: map<string, Entry>, log: Log)
    ensures |ConfirmedOf(data, log)| <= |log|
    ensures |ConfirmedOf(data, log)| == |log| <==> forall i :: 0 <= i < |log| ==> IsConfirmed(data, log[i])
    ensures |ConfirmedOf(data, log)| == |log| ==> ConfirmedOf(data, log) == log
  {
    if log != [] {
      hide IsConfirmed;
      ConfirmedAll(data, log[..|log| - 1]);
    }
  }

  /** The transactions of the reading are those of the entries, in order. */
  predicate ReadsWhole(reading: Reading, mine: Log) {
    |reading.transactions| == |mine| && forall i :: 0 <= i < |mine| ==> reading.transactions[i].transaction == mine[i].transaction
  }

  /** The confirmed entries with the latest pending one: all the entries iff none but the latest is unconfirmed. */
  lemma ConfirmedThenLatest(data: map<string, Entry>, mine: Log)
    ensures var all := ConfirmedOf(data, mine) + LatestPending(data, mine);
      && |all| <= |mine|
      && (|all| == |mine| ==> all == mine)
      && (|all| == |mine| <==> forall i :: 0 <= i < |mine| - 1 ==> IsConfirmed(data, mine[i]))
  {
    if mine != [] {
      hide IsConfirmed;
      var rest := mine[..|mine| - 1];
      ConfirmedAll(data, rest);
      assert mine == rest + [mine[|mine| - 1]];
      assert forall i :: 0 <= i < |rest| ==> rest[i] == mine[i];
    }
  }

  lemma WholeIff(reading: Reading, confirmed: Log, pending: Log, mine: Log)
    requires Unchanged(reading, confirmed, pending) && |confirmed + pending| <= |mine|
    requires |confirmed + pending| == |mine| ==> confirmed + pending == mine
    ensures ReadsWhole(reading, mine) <==> |confirmed + pending| == |mine|
  {
    if |confirmed + pending| == |mine| {
      forall i | 0 <= i < |mine| ensures reading.transactions[i].transaction == mine[i].transaction {
        assert (confirmed + pending)[i] == mine[i];
        assert i >= |confirmed| ==> reading.transactions[|confirmed| + (i - |confirmed|)].transaction == pending[i - |confirmed|].transaction;
      }
    }
  }

  /**
   When a channel is read as a whole. The protocol above the storage takes what it reads
   for the log of the channel; this is so iff every transaction but the latest is
   confirmed, because the pending store remembers the latest one only.
   */
  lemma WholeChannelIsReadIff(w: World, locate: Locate, ops: seq<Op>, c: string)
    requires ValidWorld(w) && OneDocumentPerId(ExecAll(locate, ops).log)
    requires forall e :: e in InChannel(ExecAll(locate, ops).log, c) ==> WrittenBySomeone(w, e.transaction)
    ensures var r := ExecAll(locate, ops);
      var mine := InChannel(r.log, c);
      var (reading, _) := ReadStep(r.state, c);
      reading.Ok? ==> (ReadsWhole(reading.value, mine) <==> forall i :: 0 <= i < |mine| - 1 ==> IsConfirmed(r.state.data, mine[i]))
  {
    hide ExecAll, ReadStep, IsConfirmed, InChannel, WrittenBySomeone, OneDocumentPerId, ConfirmedOf, LatestPending, Unchanged, ReadsWhole;
    var r := ExecAll(locate, ops);
    var mine := InChannel(r.log, c);
    var (reading, _) := ReadStep(r.state, c);
    WrittenTransactionsComeBack(w, locate, ops, c);
    ConfirmedThenLatest(r.state.data, mine);
    if reading.Ok? {
      WholeIff(reading.value, ConfirmedOf(r.state.data, mine), LatestPending(r.state.data, mine), mine);
    }
  }

  // ---------- when a read fails ----------

  /** A document is stored under the id, and is a block if it is confirmed. */
  predicate IsSound(data: map<string, Entry>, id: string) {
    id in data && (data[id].confirmed ==> Block.ParseBlock(data[id].content).Ok?)
  }

  ghost predicate AreSound(data: map<string, Entry>, ids: seq<string>) {
    forall i :: 0 <= i < |ids| ==> IsSound(data, ids[i])
  }

  lemma {:induction false} GatherSucceedsIff(data: map<string, Entry>, ids: seq<string>)
    requires Sound(data) && AllStored(data, ids)
    ensures Gather(data, ids).Ok? <==> AreSound(data, ids)
    ensures Gather(data, ids).Err? ==> Gather(data, ids).error.BadBlock?
  {
    if ids != [] {
      hide Block.ParseBlock, IsWriterDocument;
      var n := |ids| - 1;
      GatherSucceedsIff(data, ids[..n]);
      assert forall i :: 0 <= i < n ==> ids[..n][i] == ids[i];
    }
  }

  lemma ParseSucceedsIff(data: map<string, Entry>, ids: seq<string>)
    requires Sound(data)
    ensures ParseDocuments(data, ids).Ok? <==> AreSound(data, ids)
    ensures ParseDocuments(data, ids) == Err(NotFound) <==> !AllStored(data, ids)
  {
    hide Block.ParseBlock, IsWriterDocument;
    if AllStored(data, ids) {
      GatherSucceedsIff(data, ids);
    }
  }

  /**
   When a read fails, whatever the stores hold: iff the document of the pending item, or
   of a location of the channel, is missing, or is confirmed and no block. A document
   that is missing from the index alone is reported as not found.
   */
  lemma ReadSucceedsIff(s: State, c: string)
    requires Sound(s.data)
    ensures var reading, ids := ReadStep(s, c).0, Block.Lookup(s.channelToLocations, c);
      && (reading.Ok? <==> (c in s.pending ==> IsSound(s.data, s.pending[c].id)) && AreSound(s.data, ids))
      && ((c in s.pending ==> IsSound(s.data, s.pending[c].id)) ==> (reading == Err(NotFound) <==> !AllStored(s.data, ids)))
  {
    hide Block.ParseBlock, IsWriterDocument, ParseDocuments, AllStored, OfChannel;
    var ids := Block.Lookup(s.channelToLocations, c);
    ParseSucceedsIff(s.data, ids);
    if c in s.pending {
      ParseSucceedsIff(s.data, [s.pending[c].id]);
      assert AreSound(s.data, [s.pending[c].id]) <==> IsSound(s.data, s.pending[c].id) by {
        assert [s.pending[c].id][0] == s.pending[c].id;
      }
    }
  }

  // ---------- what a read forgets ----------

  /**
   A read writes nothing but the pending store: the item of the channel is forgotten iff
   the location of its latest entry is confirmed, and no other channel loses its own.
   */
  lemma ReadForgetsTheConfirmed(locate: Locate, ops: seq<Op>, c: string)
    ensures var r := ExecAll(locate, ops);
      var mine := InChannel(r.log, c);
      var (reading, after) := ReadStep(r.state, c);
      && after == r.state.(pending := after.pending)
      && (reading.Ok? ==>
            after.pending == if mine != [] && IsConfirmed(r.state.data, mine[|mine| - 1]) then r.state.pending - {c} else r.state.pending)
  {
    hide ExecAll, InChannel, ParseDocuments, IndexedItems, DataAgrees, IndexAgrees, AllReadable, IsConfirmed;
    var r := ExecAll(locate, ops);
    var mine := InChannel(r.log, c);
    RunKeepsInv(locate, ops);
    MineIsStored(r, c);
    PendingIsRemembered(r, c);
    assert PendingAgrees(r.state, r.log, r.stored, c);
    assert c !in r.state.pending ==> r.state.pending - {c} == r.state.pending;
  }

  // ---------- topics ----------

  function Count(s: seq<string>, k: string): nat {
    multiset(s)[k]
  }

  function Times(n: nat, value: string): seq<string> {
    if n == 0 then [] else Times(n - 1, value) + [value]
  }

  /** The channel of each entry, once for each time that the entry names the topic. */
  function ChannelsNaming(log: Log, topic: string): seq<string> {
    if log == [] then []
    else
      var last := log[|log| - 1];
      ChannelsNaming(log[..|log| - 1], topic) + Times(Count(last.topics, topic), last.channelId)
  }

  lemma AddAllStep(index: map<string, seq<string>>, keys: seq<string>, value: string, k: string)
    requires keys != []
    ensures var rest, last := keys[..|keys| - 1], keys[|keys| - 1];
      Block.Lookup(AddAll(index, keys, value), k)
        == Block.Lookup(AddAll(index, rest, value), k) + (if last == k then [value] else [])
  {
  }

  lemma CountStep(s: seq<string>, k: string)
    requires s != []
    ensures Count(s, k) == Count(s[..|s| - 1], k) + (if s[|s| - 1] == k then 1 else 0)
  {
    assert s == s[..|s| - 1] + [s[|s| - 1]];
  }

  lemma TimesStep(n: nat, more: bool, value: string)
    ensures Times(n + (if more then 1 else 0), value) == Times(n, value) + (if more then [value] else [])
  {
  }

  lemma {:induction false} AddAllAppends(index: map<string, seq<string>>, keys: seq<string>, value: string, k: string)
    ensures Block.Lookup(AddAll(index, keys, value), k) == Block.Lookup(index, k) + Times(Count(keys, k), value)
  {
    if keys != [] {
      hide AddAll, Times, Count, Block.Lookup;
      var rest, last := keys[..|keys| - 1], keys[|keys| - 1];
      AddAllAppends(index, rest, value, k);
      AddAllStep(index, keys, value, k);
      CountStep(keys, k);
      TimesStep(Count(rest, k), last == k, value);
      Assoc(Block.Lookup(index, k), Times(Count(rest, k), value), if last == k then [value] else []);
    }
  }

  lemma WrittenTopics(r: Run, e: LogEntry, topic: string)
    requires Block.Lookup(r.state.topicToChannels, topic) == ChannelsNaming(r.log, topic)
    ensures Block.Lookup(Written(r, e).state.topicToChannels, topic) == ChannelsNaming(Written(r, e).log, topic)
  {
    hide AddAll, DocumentOf;
    AddAllAppends(r.state.topicToChannels, e.topics, e.channelId, topic);
    assert (r.log + [e])[..|r.log|] == r.log;
  }

  lemma OthersKeepTopics(locate: Locate, r: Run, op: Op)
    requires Sound(r.state.data) && !op.PersistOp?
    ensures Exec(locate, r, op).state.topicToChannels == r.state.topicToChannels && Exec(locate, r, op).log == r.log
  {
    hide ParseDocuments, IndexedItems, DocumentOf;
  }

  /** In every run the index of a topic holds the channels of the entries that name it, in persist order. */
  lemma {:induction false} TopicsAreIndexed(locate: Locate, ops: seq<Op>, topic: string)
    ensures Block.Lookup(ExecAll(locate, ops).state.topicToChannels, topic) == ChannelsNaming(ExecAll(locate, ops).log, topic)
  {
    if ops != [] {
      hide Exec, Written, ChannelsNaming;
      var before, op := ExecAll(locate, ops[..|ops| - 1]), ops[|ops| - 1];
      TopicsAreIndexed(locate, ops[..|ops| - 1], topic);
      match op {
        case PersistOp(tx, channelId, topics, now) =>
          PersistWrites(locate, before, tx, channelId, topics, now);
          var after := ExecAll(locate, ops);
          if after != before {
            var e :| after == Written(before, e);
            WrittenTopics(before, e, topic);
          }
        case _ => OthersKeepTopics(locate, before, op);
      }
    }
  }

  /** So a channel is found by a topic iff one of its transactions was persisted with that topic. */
  lemma ChannelIsFoundByTopicIff(locate: Locate, ops: seq<Op>, topic: string, c: string)
    ensures var r := ExecAll(locate, ops);
      c in Block.Lookup(r.state.topicToChannels, topic) <==> exists e :: e in r.log && e.channelId == c && topic in e.topics
  {
    TopicsAreIndexed(locate, ops, topic);
    NamedIff(ExecAll(locate, ops).log, topic, c);
  }

  lemma {:induction false} TimesContain(n: nat, value: string, c: string)
    ensures c in Times(n, value) <==> n > 0 && c == value
  {
    if n > 0 {
      TimesContain(n - 1, value, c);
    }
  }

  lemma {:induction false} NamedIff(log: Log, topic: string, c: string)
    ensures c in ChannelsNaming(log, topic) <==> exists e :: e in log && e.channelId == c && topic in e.topics
  {
    if log != [] {
      var rest, last := log[..|log| - 1], log[|log| - 1];
      NamedIff(rest, topic, c);
      assert log == rest + [last];
      TimesContain(Count(last.topics, topic), last.channelId, c);
    }
  }
}
