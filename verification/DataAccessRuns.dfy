/** The index and the pending store agree with the log of what was persisted, over every run. */
module DataAccessRuns {
  import opened Wrappers
  import opened TransactionTypes
  import opened DataAccess
  import Block
  import Normalize
  import Text

  // ---------- runs ----------

  datatype Op =
    | PersistOp(transaction: Persisted, channelId: string, topics: seq<string>, now: int)
    | ConfirmOp(index: nat)
    | ReadOp(channelId: string)

  /** One successful persist, as an observer would write it down. */
  datatype LogEntry = LogEntry(id: string, channelId: string, topics: seq<string>, transaction: Persisted, timestamp: int)

  type Log = seq<LogEntry>

  /** The state, the log of an observer, and the entry whose document is stored under each id. The program keeps only the state. */
  datatype Run = Run(state: State, log: Log, stored: map<string, LogEntry>)

  const START := Run(INITIAL, [], map[])

  function WriterBlock(e: LogEntry): Block.Block {
    Block.Block(
      Block.Header(map[e.channelId := [0]], Block.AddTopics(map[], e.channelId, e.topics), Block.VERSION),
      [e.transaction])
  }

  /** The document of an entry. */
  function DocumentOf(e: LogEntry): Block.Document {
    Block.Print(WriterBlock(e))
  }

  /** One atomic step. A confirmation is the timer of one of the appends. */
  function Exec(locate: Locate, r: Run, op: Op): Run
    requires Sound(r.state.data)
  {
    match op
    case PersistOp(tx, channelId, topics, now) =>
      var (outcome, after) := PersistStep(locate, r.state, tx, channelId, topics, now);
      if outcome.Err? then r
      else
        var e := LogEntry(outcome.value, channelId, topics, tx, now);
        Run(after, r.log + [e], r.stored[e.id := e])
    case ConfirmOp(index) =>
      if index >= |r.log| then r
      else
        var e := r.log[index];
        Run(ConfirmStep(r.state, e.id, DocumentOf(e), e.timestamp), r.log, r.stored[e.id := e])
    case ReadOp(channelId) => r.(state := ReadStep(r.state, channelId).1)
  }

  function ExecAll(locate: Locate, ops: seq<Op>): (r: Run)
    ensures Sound(r.state.data)
  {
    if ops == [] then START
    else
      var before := ExecAll(locate, ops[..|ops| - 1]);
      ExecKeepsSound(locate, before, ops[|ops| - 1]);
      Exec(locate, before, ops[|ops| - 1])
  }

  lemma ExecKeepsSound(locate: Locate, r: Run, op: Op)
    requires Sound(r.state.data)
    ensures Sound(Exec(locate, r, op).state.data)
  {
    match op {
      case PersistOp(tx, channelId, topics, now) => PersistKeepsSound(locate, r.state, tx, channelId, topics, now);
      case ConfirmOp(index) =>
        if index < |r.log| {
          DocumentIsAWriters(r.log[index]);
        }
      case _ =>
    }
  }

  lemma DocumentIsAWriters(e: LogEntry)
    ensures IsWriterDocument(DocumentOf(e))
  {
    assert e.channelId in WriterBlock(e).header.channelIds && WriterBlock(e).header.channelIds == map[e.channelId := [0]];
  }

  // ---------- the log as a reference ----------

  /** The entries of a channel, in persist order. */
  function InChannel(log: Log, channelId: string): Log {
    if log == [] then []
    else
      var rest, last := InChannel(log[..|log| - 1], channelId), log[|log| - 1];
      if last.channelId == channelId then rest + [last] else rest
  }

  function Ids(log: Log): seq<string> {
    seq(|log|, i requires 0 <= i < |log| => log[i].id)
  }

  predicate IsConfirmed(data: map<string, Entry>, e: LogEntry) {
    e.id in data && data[e.id].confirmed
  }

  function ConfirmedOf(data: map<string, Entry>, log: Log): Log {
    if log == [] then []
    else
      var rest, last := ConfirmedOf(data, log[..|log| - 1]), log[|log| - 1];
      if IsConfirmed(data, last) then rest + [last] else rest
  }

  /** The latest entry of the channel, when the storage has not confirmed it. */
  function LatestPending(data: map<string, Entry>, log: Log): Log {
    if log == [] || IsConfirmed(data, log[|log| - 1]) then [] else [log[|log| - 1]]
  }

  predicate WellFormed(e: LogEntry) {
    Block.WellFormed(Block.Pushed(e.transaction, e.channelId, e.topics))
  }

  /** What a reader receives for some confirmed entries and some pending ones. */
  function ReadingOf(confirmed: Log, pending: Log): Reading {
    Reading(
      seq(|confirmed|, i requires 0 <= i < |confirmed| => Timestamped(CONFIRMED, 0, Stripped(confirmed[i].transaction)))
        + seq(|pending|, i requires 0 <= i < |pending| => Timestamped(PENDING, pending[i].timestamp, pending[i].transaction)),
      Ids(confirmed) + Ids(pending))
  }

  /** What a reader of the channel should receive: its confirmed entries, and the latest one while it is not confirmed. */
  function Expected(data: map<string, Entry>, log: Log): Reading {
    ReadingOf(ConfirmedOf(data, log), LatestPending(data, log))
  }

  // ---------- the invariant ----------

  /** The document of the entry is stored under its id, with its timestamp. */
  ghost predicate Stores(data: map<string, Entry>, e: LogEntry) {
    e.id in data && data[e.id].content == DocumentOf(e) && data[e.id].timestamp == e.timestamp
  }

  ghost predicate AllStores(data: map<string, Entry>, log: Log) {
    forall i :: 0 <= i < |log| ==> Stores(data, log[i])
  }

  /** Under the id of every entry the document of some entry with that id is stored. */
  ghost predicate DataAgrees(data: map<string, Entry>, log: Log, stored: map<string, LogEntry>) {
    && (forall e :: e in log ==> e.id in stored)
    && (forall id :: id in stored ==> stored[id] in log && stored[id].id == id && Stores(data, stored[id]))
  }

  ghost predicate IndexAgrees(s: State, log: Log) {
    forall c :: Block.Lookup(s.channelToLocations, c) == Ids(InChannel(log, c))
  }

  /** The two entries have the same document. */
  predicate IsCopy(e: LogEntry, f: LogEntry) {
    e.channelId == f.channelId && e.transaction == f.transaction && e.topics == f.topics
  }

  /**
   The pending item of a channel is its latest entry; it can be missing only once that
   entry is confirmed, or its document overwritten by another one.
   */
  ghost predicate PendingAgrees(s: State, log: Log, stored: map<string, LogEntry>, c: string) {
    var mine := InChannel(log, c);
    if mine == [] then c !in s.pending
    else
      var last := mine[|mine| - 1];
      && (c in s.pending ==> s.pending[c] == ItemOf(last))
      && (c in s.pending || IsConfirmed(s.data, last) || (last.id in stored && !IsCopy(stored[last.id], last)))
  }

  ghost predicate Inv(r: Run) {
    && DataAgrees(r.state.data, r.log, r.stored)
    && IndexAgrees(r.state, r.log)
    && forall c :: PendingAgrees(r.state, r.log, r.stored, c)
  }

  /** A write that does not throw stores exactly the block of one transaction. */
  lemma WrittenBlock(tx: Persisted, channelId: string, topics: seq<string>, e: LogEntry)
    requires e.transaction == tx && e.channelId == channelId && e.topics == topics
    requires Block.Push(Block.EMPTY_BLOCK, tx, channelId, topics).Ok?
    ensures Block.Push(Block.EMPTY_BLOCK, tx, channelId, topics).value == WriterBlock(e)
  {
    assert Block.Lookup(Block.EMPTY_BLOCK.header.channelIds, channelId) + [0] == [0];
    assert Block.EMPTY_BLOCK.transactions + [tx] == [tx];
  }

  lemma InChannelSnoc(log: Log, e: LogEntry, c: string)
    ensures InChannel(log + [e], c) == InChannel(log, c) + (if e.channelId == c then [e] else [])
    ensures Ids(InChannel(log + [e], c)) == Ids(InChannel(log, c)) + (if e.channelId == c then [e.id] else [])
  {
    assert (log + [e])[..|log|] == log;
  }

  lemma {:induction false} InChannelMembers(log: Log, c: string)
    ensures forall i :: 0 <= i < |InChannel(log, c)| ==> InChannel(log, c)[i] in log && InChannel(log, c)[i].channelId == c
  {
    if log != [] {
      var rest := log[..|log| - 1];
      InChannelMembers(rest, c);
      assert forall e :: e in rest ==> e in log;
    }
  }

  // ---------- every step keeps the invariant ----------

  /** The stores after writing an entry. */
  function AfterWrite(s: State, e: LogEntry): State {
    State(
      s.data[e.id := Entry(DocumentOf(e), false, e.timestamp)],
      s.channelToLocations[e.channelId := Block.Lookup(s.channelToLocations, e.channelId) + [e.id]],
      AddAll(s.topicToChannels, e.topics, e.channelId),
      s.pending[e.channelId := ItemOf(e)])
  }

  /** The run after writing an entry. */
  function Written(r: Run, e: LogEntry): Run {
    Run(AfterWrite(r.state, e), r.log + [e], r.stored[e.id := e])
  }

  lemma WriteKeepsData(s: State, log: Log, stored: map<string, LogEntry>, e: LogEntry)
    requires DataAgrees(s.data, log, stored)
    ensures DataAgrees(AfterWrite(s, e).data, log + [e], stored[e.id := e])
  {
    hide WriterBlock;
  }

  lemma WriteKeepsIndex(s: State, log: Log, e: LogEntry)
    requires IndexAgrees(s, log)
    ensures IndexAgrees(AfterWrite(s, e), log + [e])
  {
    hide WriterBlock, AddAll;
    forall c ensures Block.Lookup(AfterWrite(s, e).channelToLocations, c) == Ids(InChannel(log + [e], c)) {
      InChannelSnoc(log, e, c);
    }
  }

  lemma WriteKeepsPending(s: State, log: Log, stored: map<string, LogEntry>, e: LogEntry, c: string)
    requires PendingAgrees(s, log, stored, c)
    ensures PendingAgrees(AfterWrite(s, e), log + [e], stored[e.id := e], c)
  {
    hide WriterBlock, AddAll, InChannel;
    InChannelSnoc(log, e, c);
    InChannelMembers(log, c);
    var mine := InChannel(log, c);
    if e.channelId == c {
      assert (mine + [e])[|mine|] == e;
    } else if mine != [] {
      assert mine[|mine| - 1].channelId == c;
    }
  }

  lemma PersistWrites(locate: Locate, r: Run, tx: Persisted, channelId: string, topics: seq<string>, now: int)
    requires Sound(r.state.data)
    ensures var after := Exec(locate, r, PersistOp(tx, channelId, topics, now));
      after == r || exists e :: after == Written(r, e)
  {
    var pushed := Block.Push(Block.EMPTY_BLOCK, tx, channelId, topics);
    if pushed.Ok? {
      var e := LogEntry(locate(Block.Print(pushed.value)), channelId, topics, tx, now);
      WrittenBlock(tx, channelId, topics, e);
      assert Exec(locate, r, PersistOp(tx, channelId, topics, now)) == Written(r, e);
    }
  }

  lemma PersistKeepsInv(locate: Locate, r: Run, tx: Persisted, channelId: string, topics: seq<string>, now: int)
    requires Sound(r.state.data) && Inv(r)
    ensures Inv(Exec(locate, r, PersistOp(tx, channelId, topics, now)))
  {
    hide Exec, AfterWrite, DataAgrees, IndexAgrees, PendingAgrees;
    var after := Exec(locate, r, PersistOp(tx, channelId, topics, now));
    PersistWrites(locate, r, tx, channelId, topics, now);
    if after != r {
      var e :| after == Written(r, e);
      WriteKeepsData(r.state, r.log, r.stored, e);
      WriteKeepsIndex(r.state, r.log, e);
      forall c ensures PendingAgrees(after.state, after.log, after.stored, c) {
        WriteKeepsPending(r.state, r.log, r.stored, e, c);
      }
    }
  }

  /** The run after the timer of an entry has fired. */
  function Timed(r: Run, e: LogEntry): Run {
    Run(ConfirmStep(r.state, e.id, DocumentOf(e), e.timestamp), r.log, r.stored[e.id := e])
  }

  lemma ConfirmKeepsData(r: Run, e: LogEntry)
    requires DataAgrees(r.state.data, r.log, r.stored) && e in r.log
    ensures DataAgrees(Timed(r, e).state.data, r.log, Timed(r, e).stored)
  {
    hide WriterBlock;
  }

  lemma ConfirmKeepsPending(r: Run, e: LogEntry, c: string)
    requires PendingAgrees(r.state, r.log, r.stored, c)
    ensures PendingAgrees(Timed(r, e).state, r.log, Timed(r, e).stored, c)
  {
    hide InChannel;
  }

  lemma ConfirmKeepsInv(r: Run, e: LogEntry)
    requires Inv(r) && e in r.log
    ensures Inv(Timed(r, e))
  {
    hide DataAgrees, PendingAgrees;
    ConfirmKeepsData(r, e);
    forall c ensures PendingAgrees(Timed(r, e).state, r.log, Timed(r, e).stored, c) {
      ConfirmKeepsPending(r, e, c);
    }
  }

  // ---------- what a read returns ----------

  /** The items that a list of entries gives. */
  function ItemsOf(log: Log): seq<Item> {
    seq(|log|, i requires 0 <= i < |log| => Item(log[i].id, log[i].channelId, log[i].transaction))
  }

  function ItemOf(e: LogEntry): PendingItem {
    PendingItem(e.id, e.timestamp, e.transaction, e.topics)
  }

  function PendingItems(log: Log): seq<PendingItem> {
    seq(|log|, i requires 0 <= i < |log| => ItemOf(log[i]))
  }

  ghost predicate AllReadable(data: map<string, Entry>, log: Log) {
    forall i :: 0 <= i < |log| && IsConfirmed(data, log[i]) ==> WellFormed(log[i])
  }

  lemma StoredIsWritten(e: LogEntry, data: map<string, Entry>)
    requires Sound(data) && Stores(data, e)
    ensures Block.ParseBlock(data[e.id].content).Ok? <==> WellFormed(e)
    ensures Block.ParseBlock(data[e.id].content).Ok? ==>
      var b := Block.ParseBlock(data[e.id].content).value;
      && b == WriterBlock(e) && OneChannel(b.header.channelIds)
      && TheChannel(b.header.channelIds) == e.channelId && b.transactions == [e.transaction]
  {
    var b := WriterBlock(e);
    assert Block.Print(b) == data[e.id].content;
    assert e.channelId in b.header.channelIds && b.header.channelIds == map[e.channelId := [0]];
    PrintedWriterBlock(e);
  }

  /** The writer's block, written even for a transaction without a payload, parses iff it is well formed. */
  lemma PrintedWriterBlock(e: LogEntry)
    ensures Block.ParseBlock(Block.Print(WriterBlock(e))).Ok? <==> WellFormed(e)
    ensures Block.ParseBlock(Block.Print(WriterBlock(e))).Ok? ==> Block.ParseBlock(Block.Print(WriterBlock(e))).value == WriterBlock(e)
  {
    var b := WriterBlock(e);
    Block.ParsePrinted(b);
    assert Block.HasPayload(b.transactions[0]) == Block.HasPayload(e.transaction);
    assert e.channelId in b.header.channelIds.Keys;
    assert e.topics != [] ==> b.header.topics[e.channelId] == e.topics;
  }

  lemma AllReadableSnoc(data: map<string, Entry>, log: Log)
    requires log != []
    ensures var rest, last := log[..|log| - 1], log[|log| - 1];
      AllReadable(data, log) <==> AllReadable(data, rest) && (IsConfirmed(data, last) ==> WellFormed(last))
  {
    hide WellFormed;
    var rest := log[..|log| - 1];
    assert forall i :: 0 <= i < |rest| ==> rest[i] == log[i];
  }

  lemma GatherStep(data: map<string, Entry>, locations: seq<string>, e: LogEntry)
    requires Sound(data) && AllStored(data, locations) && Stores(data, e)
    ensures AllStored(data, locations + [e.id])
    ensures var before, after := Gather(data, locations), Gather(data, locations + [e.id]);
      if before.Err? then after.Err?
      else if !IsConfirmed(data, e) then after == before
      else if WellFormed(e) then after == Ok(before.value + [Item(e.id, e.channelId, e.transaction)])
      else after.Err?
  {
    hide Block.ParseBlock, WriterBlock, WellFormed, IsWriterDocument;
    StoredIsWritten(e, data);
    assert (locations + [e.id])[..|locations|] == locations;
  }

  lemma {:induction false} GatherGivesConfirmed(data: map<string, Entry>, log: Log)
    requires Sound(data) && AllStores(data, log)
    ensures AllStored(data, Ids(log))
    ensures if AllReadable(data, log) then Gather(data, Ids(log)) == Ok(ItemsOf(ConfirmedOf(data, log))) else Gather(data, Ids(log)).Err?
  {
    if log != [] {
      hide Gather, AllStored, AllReadable, WellFormed, Stores, Sound;
      var rest, last := log[..|log| - 1], log[|log| - 1];
      GatherGivesConfirmed(data, rest);
      assert Stores(data, last);
      GatherStep(data, Ids(rest), last);
      assert Ids(log) == Ids(rest) + [last.id];
      AllReadableSnoc(data, log);
      ItemsOfSnoc(ConfirmedOf(data, rest), last);
    } else {
      assert Ids(log) == [] && ItemsOf(ConfirmedOf(data, log)) == [];
    }
  }

  lemma ItemsOfSnoc(log: Log, e: LogEntry)
    ensures ItemsOf(log + [e]) == ItemsOf(log) + [Item(e.id, e.channelId, e.transaction)]
  {
  }

  lemma {:induction false} OfChannelKeepsAll(items: seq<Item>, c: string)
    requires forall i :: 0 <= i < |items| ==> items[i].channelId == c
    ensures OfChannel(items, c) == items
  {
    if items != [] {
      OfChannelKeepsAll(items[..|items| - 1], c);
    }
  }

  lemma {:induction false} ConfirmedMembers(data: map<string, Entry>, log: Log)
    ensures forall i :: 0 <= i < |ConfirmedOf(data, log)| ==> ConfirmedOf(data, log)[i] in log && IsConfirmed(data, ConfirmedOf(data, log)[i])
  {
    if log != [] {
      var rest := log[..|log| - 1];
      ConfirmedMembers(data, rest);
      assert forall e :: e in rest ==> e in log;
    }
  }

  // ---------- what is stored for a channel ----------

  /** For every entry, the one whose document is stored under its id. */
  function Seen(stored: map<string, LogEntry>, log: Log): Log
    requires forall e :: e in log ==> e.id in stored
  {
    seq(|log|, i requires 0 <= i < |log| => stored[log[i].id])
  }

  /** Those of them that are of the channel: other documents that a location of the channel leads to are not returned. */
  function Visible(stored: map<string, LogEntry>, mine: Log, c: string): Log
    requires forall e :: e in mine ==> e.id in stored
  {
    InChannel(Seen(stored, mine), c)
  }

  lemma {:induction false} FiltersCommute(data: map<string, Entry>, log: Log, c: string)
    ensures ConfirmedOf(data, InChannel(log, c)) == InChannel(ConfirmedOf(data, log), c)
  {
    if log != [] {
      hide IsConfirmed;
      var rest, last := log[..|log| - 1], log[|log| - 1];
      FiltersCommute(data, rest, c);
      InChannelSnoc(ConfirmedOf(data, rest), last, c);
      ConfirmedSnoc(data, InChannel(rest, c), last);
    }
  }

  lemma ConfirmedSnoc(data: map<string, Entry>, log: Log, e: LogEntry)
    ensures ConfirmedOf(data, log + [e]) == ConfirmedOf(data, log) + (if IsConfirmed(data, e) then [e] else [])
  {
    assert (log + [e])[..|log|] == log;
  }

  lemma {:induction false} OfChannelOfItems(log: Log, c: string)
    ensures OfChannel(ItemsOf(log), c) == ItemsOf(InChannel(log, c))
  {
    if log != [] {
      var rest, last := log[..|log| - 1], log[|log| - 1];
      OfChannelOfItems(rest, c);
      assert ItemsOf(log)[..|log| - 1] == ItemsOf(rest);
      ItemsOfSnoc(InChannel(rest, c), last);
    }
  }

  lemma MineIsStored(r: Run, c: string)
    requires DataAgrees(r.state.data, r.log, r.stored)
    ensures forall e :: e in InChannel(r.log, c) ==> e in r.log && e.id in r.stored && e.channelId == c
  {
    InChannelMembers(r.log, c);
  }

  lemma SeenIsStored(data: map<string, Entry>, log: Log, stored: map<string, LogEntry>, mine: Log)
    requires DataAgrees(data, log, stored) && forall e :: e in mine ==> e.id in stored
    ensures AllStores(data, Seen(stored, mine)) && Ids(Seen(stored, mine)) == Ids(mine)
  {
    hide WriterBlock;
    forall i | 0 <= i < |mine| ensures Stores(data, Seen(stored, mine)[i]) && Seen(stored, mine)[i].id == mine[i].id {
      assert mine[i] in mine;
    }
  }

  /** The indexed part of a read: the visible entries that are confirmed, in persist order. */
  lemma IndexedIsVisible(s: State, data: map<string, Entry>, log: Log, stored: map<string, LogEntry>, c: string)
    requires Sound(data) && DataAgrees(data, log, stored) && IndexAgrees(s, log)
    requires forall e :: e in InChannel(log, c) ==> e.id in stored
    ensures var mine, items := InChannel(log, c), IndexedItems(s.(data := data), c);
      if AllReadable(data, Seen(stored, mine)) then items == Ok(ItemsOf(ConfirmedOf(data, Visible(stored, mine, c)))) else items.Err?
  {
    hide Gather, Block.ParseBlock, WriterBlock, WellFormed, IsWriterDocument, Stores;
    var mine := InChannel(log, c);
    SeenIsStored(data, log, stored, mine);
    GatherGivesConfirmed(data, Seen(stored, mine));
    FiltersCommute(data, Seen(stored, mine), c);
    OfChannelOfItems(ConfirmedOf(data, Seen(stored, mine)), c);
  }

  /** The pending entry that the store still has for the channel and returns: its latest, while its location is not confirmed. */
  function Remembered(s: State, mine: Log, c: string): Log {
    if mine == [] || c !in s.pending || IsConfirmed(s.data, mine[|mine| - 1]) then [] else [mine[|mine| - 1]]
  }

  lemma PendingIsRemembered(r: Run, c: string)
    requires Sound(r.state.data) && Inv(r) && forall e :: e in InChannel(r.log, c) ==> e.id in r.stored
    ensures var mine := InChannel(r.log, c);
      var (pending, after) := PendingStep(r.state, c);
      && after.data == r.state.data && after.channelToLocations == r.state.channelToLocations
      && (AllReadable(r.state.data, Seen(r.stored, mine)) ==> pending.Ok?)
      && (pending.Ok? ==> pending.value == PendingItems(Remembered(r.state, mine, c)))
      && Inv(r.(state := after))
  {
    hide Gather, Block.ParseBlock, WriterBlock, WellFormed, IsWriterDocument, Stores, DataAgrees;
    var mine := InChannel(r.log, c);
    assert PendingAgrees(r.state, r.log, r.stored, c);
    var (pending, after) := PendingStep(r.state, c);
    if c in r.state.pending {
      var last := mine[|mine| - 1];
      SeenIsStored(r.state.data, r.log, r.stored, mine);
      var f := Seen(r.stored, mine)[|mine| - 1];
      assert f.id == Ids(Seen(r.stored, mine))[|mine| - 1] == last.id;
      GatherGivesConfirmed(r.state.data, [f]);
      assert Ids([f]) == [last.id] && [f][..0] == [];
      assert AllReadable(r.state.data, Seen(r.stored, mine)) ==> AllReadable(r.state.data, [f]);
    }
    forall d ensures PendingAgrees(after, r.log, r.stored, d) {
      assert PendingAgrees(r.state, r.log, r.stored, d);
    }
  }

  // ---------- the main results ----------

  /** The invariant of every run, whatever the storage ids are. */
  lemma {:induction false} RunKeepsInv(locate: Locate, ops: seq<Op>)
    ensures Inv(ExecAll(locate, ops))
  {
    if ops != [] {
      hide Inv, PersistStep, ReadStep, PendingStep;
      var before, op := ExecAll(locate, ops[..|ops| - 1]), ops[|ops| - 1];
      RunKeepsInv(locate, ops[..|ops| - 1]);
      match op {
        case PersistOp(tx, channelId, topics, now) => PersistKeepsInv(locate, before, tx, channelId, topics, now);
        case ConfirmOp(index) =>
          if index < |before.log| {
            ConfirmKeepsInv(before, before.log[index]);
          }
        case ReadOp(channelId) =>
          ReadKeepsInv(before, channelId);
      }
    } else {
      NothingYet(locate);
    }
  }

  lemma ReadKeepsInv(r: Run, c: string)
    requires Sound(r.state.data) && Inv(r)
    ensures Inv(r.(state := ReadStep(r.state, c).1))
  {
    hide PendingAgrees, DataAgrees, IndexAgrees, PendingStep, IndexedItems;
    MineIsStored(r, c);
    PendingIsRemembered(r, c);
  }

  lemma NothingYet(locate: Locate)
    ensures ExecAll(locate, []) == START && Inv(START)
  {
  }

  lemma ReadingOfEntries(confirmed: Log, pending: Log)
    ensures MakeReading(ItemsOf(confirmed), PendingItems(pending)) == ReadingOf(confirmed, pending)
  {
    var a, b := MakeReading(ItemsOf(confirmed), PendingItems(pending)), ReadingOf(confirmed, pending);
    assert a.transactions == b.transactions;
    assert a.locations == b.locations;
  }

  /**
   What a read returns in every run, even when ids collide: for each entry of the
   channel, in persist order, the document that is stored under its id, when it is
   confirmed and of the channel; then the latest entry while the pending store has it
   and its location is not confirmed. The read fails iff one of the confirmed
   documents is malformed.
   */
  lemma ReadReturns(locate: Locate, ops: seq<Op>, c: string)
    ensures var r := ExecAll(locate, ops);
      var mine := InChannel(r.log, c);
      var (reading, after) := ReadStep(r.state, c);
      && (forall e :: e in mine ==> e.id in r.stored)
      && after.data == r.state.data
      && (reading.Ok? <==> AllReadable(r.state.data, Seen(r.stored, mine)))
      && (reading.Ok? ==>
            reading.value == ReadingOf(ConfirmedOf(r.state.data, Visible(r.stored, mine, c)), Remembered(r.state, mine, c)))
  {
    hide Gather, Block.ParseBlock, WriterBlock, WellFormed, IsWriterDocument, Exec, PersistStep, ExecAll, PendingStep, IndexedItems,
      DataAgrees, IndexAgrees, PendingAgrees;
    var r := ExecAll(locate, ops);
    var mine := InChannel(r.log, c);
    RunKeepsInv(locate, ops);
    MineIsStored(r, c);
    PendingIsRemembered(r, c);
    var (pending, after) := PendingStep(r.state, c);
    IndexedIsVisible(after, r.state.data, r.log, r.stored, c);
    ReadingOfEntries(ConfirmedOf(r.state.data, Visible(r.stored, mine, c)), Remembered(r.state, mine, c));
  }

  // ---------- when a read agrees with the log ----------

  /** A reader of the channel cannot tell one entry from the other. */
  predicate ReadsAs(f: LogEntry, e: LogEntry) {
    f.channelId == e.channelId && Stripped(f.transaction) == Stripped(e.transaction)
  }

  lemma {:induction false} ConfirmedSeen(data: map<string, Entry>, stored: map<string, LogEntry>, mine: Log)
    requires forall e :: e in mine ==> e.id in stored && stored[e.id].id == e.id
    ensures forall e :: e in ConfirmedOf(data, mine) ==> e in mine && IsConfirmed(data, e)
    ensures ConfirmedOf(data, Seen(stored, mine)) == Seen(stored, ConfirmedOf(data, mine))
  {
    if mine != [] {
      var rest, last := mine[..|mine| - 1], mine[|mine| - 1];
      assert forall e :: e in rest ==> e in mine;
      ConfirmedSeen(data, stored, rest);
      assert Seen(stored, mine)[..|mine| - 1] == Seen(stored, rest);
      assert last in mine;
    }
  }

  lemma {:induction false} ConfirmedComplete(data: map<string, Entry>, mine: Log, e: LogEntry)
    requires e in mine && IsConfirmed(data, e)
    ensures e in ConfirmedOf(data, mine)
  {
    if e in mine[..|mine| - 1] {
      ConfirmedComplete(data, mine[..|mine| - 1], e);
    }
  }

  lemma {:induction false} InChannelAll(log: Log, c: string)
    ensures |InChannel(log, c)| <= |log|
    ensures |InChannel(log, c)| == |log| <==> forall i :: 0 <= i < |log| ==> log[i].channelId == c
    ensures |InChannel(log, c)| == |log| ==> InChannel(log, c) == log
  {
    if log != [] {
      InChannelAll(log[..|log| - 1], c);
    }
  }

  /** Two readings, of which the first may leave something out of what the second confirms, and what is pending. */
  lemma SameReadingIff(a: Log, b: Log, p: Log, q: Log)
    requires |a| <= |b| && (|a| == |b| ==> Ids(a) == Ids(b)) && (p == q || p == [])
    ensures ReadingOf(a, p) == ReadingOf(b, q) <==>
      |a| == |b| && p == q && forall i :: 0 <= i < |b| && i < |a| ==> Stripped(a[i].transaction) == Stripped(b[i].transaction)
  {
    hide Stripped;
    var x, y := ReadingOf(a, p), ReadingOf(b, q);
    if x == y {
      assert |x.transactions| == |a| + |p| && |y.transactions| == |b| + |q|;
      forall i | 0 <= i < |b| ensures Stripped(a[i].transaction) == Stripped(b[i].transaction) {
        assert x.transactions[i] == y.transactions[i];
      }
    }
    if |a| == |b| && p == q && forall i :: 0 <= i < |b| && i < |a| ==> Stripped(a[i].transaction) == Stripped(b[i].transaction) {
      assert x.transactions == y.transactions;
    }
  }

  /** The confirmed part of a read against the confirmed entries of the channel. */
  lemma VisibleAgrees(r: Run, c: string)
    requires DataAgrees(r.state.data, r.log, r.stored) && forall e :: e in InChannel(r.log, c) ==> e.id in r.stored
    ensures var data, mine := r.state.data, InChannel(r.log, c);
      var a, b := ConfirmedOf(data, Visible(r.stored, mine, c)), ConfirmedOf(data, mine);
      && |a| <= |b| && (|a| == |b| ==> Ids(a) == Ids(b))
      && ((|a| == |b| && forall i :: 0 <= i < |b| && i < |a| ==> Stripped(a[i].transaction) == Stripped(b[i].transaction)) <==>
            forall e :: e in mine && IsConfirmed(data, e) ==> ReadsAs(r.stored[e.id], e))
  {
    hide Stripped, IsConfirmed, WriterBlock, Stores;
    var data, mine := r.state.data, InChannel(r.log, c);
    var b := ConfirmedOf(data, mine);
    var s := Seen(r.stored, mine);
    MineIsStored(r, c);
    ConfirmedSeen(data, r.stored, mine);
    FiltersCommute(data, s, c);
    var t := Seen(r.stored, b);
    InChannelAll(t, c);
    forall i | 0 <= i < |b| ensures t[i] == r.stored[b[i].id] && t[i].id == b[i].id && b[i].channelId == c && b[i] in mine {
      assert b[i] in b;
    }
    forall e | e in mine && IsConfirmed(data, e) ensures e in b {
      ConfirmedComplete(data, mine, e);
    }
    AgreePointwise(b, t, c);
    assert (forall e :: e in b ==> ReadsAs(r.stored[e.id], e)) <==> forall i :: 0 <= i < |b| ==> ReadsAs(t[i], b[i]);
  }

  lemma AgreePointwise(b: Log, t: Log, c: string)
    requires |b| == |t| && forall i :: 0 <= i < |b| ==> t[i].id == b[i].id && b[i].channelId == c
    ensures var a := InChannel(t, c);
      && |a| <= |b| && (|a| == |b| ==> Ids(a) == Ids(b))
      && ((|a| == |b| && forall i :: 0 <= i < |b| && i < |a| ==> Stripped(a[i].transaction) == Stripped(b[i].transaction)) <==>
            forall i :: 0 <= i < |b| ==> ReadsAs(t[i], b[i]))
  {
    hide Stripped, InChannel;
    InChannelAll(t, c);
  }

  /**
   When a read agrees with the log, in every run. A read that does not fail returns
   each confirmed transaction of the channel, in persist order, then its latest one iff
   it is unconfirmed, iff the document stored last under the id of every confirmed
   entry reads as its own, and the pending store still has the latest entry while it is
   not confirmed.
   */
  lemma ReadAgreesIff(locate: Locate, ops: seq<Op>, c: string)
    ensures var r := ExecAll(locate, ops);
      var mine := InChannel(r.log, c);
      var (reading, _) := ReadStep(r.state, c);
      && (forall e :: e in mine ==> e.id in r.stored)
      && (reading.Ok? ==>
            (reading.value == Expected(r.state.data, mine) <==>
              && (forall e :: e in mine && IsConfirmed(r.state.data, e) ==> ReadsAs(r.stored[e.id], e))
              && (mine == [] || IsConfirmed(r.state.data, mine[|mine| - 1]) || c in r.state.pending)))
  {
    hide ExecAll, ReadStep, IsConfirmed, InChannel, ConfirmedOf, Visible, Stripped, ReadsAs, AllReadable, DataAgrees, IndexAgrees,
      PendingAgrees, ReadingOf;
    var r := ExecAll(locate, ops);
    var mine := InChannel(r.log, c);
    ReadReturns(locate, ops, c);
    RunKeepsInv(locate, ops);
    VisibleAgrees(r, c);
    var a, b := ConfirmedOf(r.state.data, Visible(r.stored, mine, c)), ConfirmedOf(r.state.data, mine);
    SameReadingIff(a, b, Remembered(r.state, mine, c), LatestPending(r.state.data, mine));
  }

  /** Entries with one id are copies of one document. */
  ghost predicate OneDocumentPerId(log: Log) {
    forall e, f :: e in log && f in log && e.id == f.id ==> IsCopy(e, f)
  }

  /**
   In a run in which no two different documents have one id, every read agrees with the
   log, and fails iff a confirmed transaction of the channel is malformed.
   */
  lemma ReadAgreesWithLog(locate: Locate, ops: seq<Op>, c: string)
    requires OneDocumentPerId(ExecAll(locate, ops).log)
    ensures var r := ExecAll(locate, ops);
      var mine := InChannel(r.log, c);
      var (reading, _) := ReadStep(r.state, c);
      && (reading.Ok? <==> AllReadable(r.state.data, mine))
      && (reading.Ok? ==> reading.value == Expected(r.state.data, mine))
  {
    hide ExecAll, ReadStep, InChannel, Stripped, ReadingOf, IndexAgrees, WellFormed;
    var r := ExecAll(locate, ops);
    var mine := InChannel(r.log, c);
    RunKeepsInv(locate, ops);
    MineIsStored(r, c);
    ReadReturns(locate, ops, c);
    ReadAgreesIff(locate, ops, c);
    StoredIsACopy(r, mine);
    assert PendingAgrees(r.state, r.log, r.stored, c);
    if mine != [] {
      assert mine[|mine| - 1] in mine;
    }
  }

  lemma StoredIsACopy(r: Run, mine: Log)
    requires DataAgrees(r.state.data, r.log, r.stored) && OneDocumentPerId(r.log)
    requires forall e :: e in mine ==> e in r.log && e.id in r.stored
    ensures forall e :: e in mine ==> IsCopy(r.stored[e.id], e) && ReadsAs(r.stored[e.id], e)
    ensures AllReadable(r.state.data, Seen(r.stored, mine)) <==> AllReadable(r.state.data, mine)
  {
    hide Stores, WriterBlock;
    forall i | 0 <= i < |mine|
      ensures WellFormed(Seen(r.stored, mine)[i]) == WellFormed(mine[i])
      ensures IsConfirmed(r.state.data, Seen(r.stored, mine)[i]) == IsConfirmed(r.state.data, mine[i])
    {
      assert mine[i] in mine && IsCopy(r.stored[mine[i].id], mine[i]);
    }
  }

  // ---------- locations ----------

  ghost predicate NoLocationTwice(locations: seq<string>) {
    forall i, j :: 0 <= i < j < |locations| ==> locations[i] != locations[j]
  }

  /** Two of the entries have one id, which the storage has confirmed. */
  ghost predicate ConfirmedTwice(data: map<string, Entry>, mine: Log) {
    exists i, j :: 0 <= i < j < |mine| && mine[i].id == mine[j].id && IsConfirmed(data, mine[i])
  }

  lemma ConfirmedTwiceSnoc(data: map<string, Entry>, mine: Log)
    requires mine != []
    ensures var n := |mine| - 1;
      ConfirmedTwice(data, mine) <==>
        ConfirmedTwice(data, mine[..n]) || (IsConfirmed(data, mine[n]) && exists i :: 0 <= i < n && mine[i].id == mine[n].id)
  {
    var n := |mine| - 1;
    if ConfirmedTwice(data, mine) {
      var i, j :| 0 <= i < j < |mine| && mine[i].id == mine[j].id && IsConfirmed(data, mine[i]);
      assert j < n ==> mine[..n][i] == mine[i] && mine[..n][j] == mine[j];
    }
    if ConfirmedTwice(data, mine[..n]) {
      var i, j :| 0 <= i < j < n && mine[..n][i].id == mine[..n][j].id && IsConfirmed(data, mine[..n][i]);
      assert mine[i].id == mine[j].id && IsConfirmed(data, mine[i]);
    }
    if i :| 0 <= i < n && mine[i].id == mine[n].id && IsConfirmed(data, mine[n]) {
      assert IsConfirmed(data, mine[i]);
    }
  }

  lemma TwiceSnoc(locations: seq<string>, id: string)
    ensures NoLocationTwice(locations + [id]) <==> NoLocationTwice(locations) && id !in locations
  {
    var all := locations + [id];
    assert all[|locations|] == id && forall i :: 0 <= i < |locations| ==> all[i] == locations[i];
  }

  lemma {:induction false} ConfirmedIds(data: map<string, Entry>, mine: Log)
    ensures NoLocationTwice(Ids(ConfirmedOf(data, mine))) <==> !ConfirmedTwice(data, mine)
    ensures forall id :: id in Ids(ConfirmedOf(data, mine)) <==>
      id in data && data[id].confirmed && exists i :: 0 <= i < |mine| && mine[i].id == id
  {
    if mine != [] {
      hide NoLocationTwice, ConfirmedTwice;
      var n := |mine| - 1;
      var last, before := mine[n], ConfirmedOf(data, mine[..n]);
      ConfirmedIds(data, mine[..n]);
      ConfirmedTwiceSnoc(data, mine);
      assert Ids(before + [last]) == Ids(before) + [last.id];
      TwiceSnoc(Ids(before), last.id);
      assert forall i :: 0 <= i < n ==> mine[..n][i] == mine[i];
    }
  }

  /** The locations of a read: those of the confirmed entries among some, then that of a pending one. */
  lemma LocationsTwiceIff(data: map<string, Entry>, visible: Log, pending: Log)
    requires |pending| <= 1
    ensures !NoLocationTwice(Ids(ConfirmedOf(data, visible)) + Ids(pending)) <==>
      || ConfirmedTwice(data, visible)
      || (pending != [] && IsConfirmed(data, pending[0]) && exists i :: 0 <= i < |visible| && visible[i].id == pending[0].id)
  {
    hide NoLocationTwice, ConfirmedTwice;
    ConfirmedIds(data, visible);
    var confirmed := Ids(ConfirmedOf(data, visible));
    if pending == [] {
      assert confirmed + Ids(pending) == confirmed;
    } else {
      assert Ids(pending) == [pending[0].id];
      TwiceSnoc(confirmed, pending[0].id);
    }
  }

  /**
   When a storage location is returned twice, in every run: iff two entries of the
   channel have one id under which a confirmed document of the channel is stored.
   */
  lemma LocationIsReadTwiceIff(locate: Locate, ops: seq<Op>, c: string)
    ensures var r := ExecAll(locate, ops);
      var mine := InChannel(r.log, c);
      var (reading, _) := ReadStep(r.state, c);
      && (forall e :: e in mine ==> e.id in r.stored)
      && (reading.Ok? ==>
            (!NoLocationTwice(reading.value.locations) <==> ConfirmedTwice(r.state.data, Visible(r.stored, mine, c))))
  {
    hide ExecAll, ReadStep, NoLocationTwice, ConfirmedTwice, InChannel, AllReadable, Visible;
    var r := ExecAll(locate, ops);
    var mine := InChannel(r.log, c);
    ReadReturns(locate, ops, c);
    LocationsTwiceIff(r.state.data, Visible(r.stored, mine, c), Remembered(r.state, mine, c));
  }

  // ---------- small runs that fail ----------

  lemma PersistLogs(locate: Locate, ops: seq<Op>, e: LogEntry)
    requires Block.HasPayload(e.transaction) && e.id == locate(DocumentOf(e))
    ensures ExecAll(locate, ops + [PersistOp(e.transaction, e.channelId, e.topics, e.timestamp)]) == Written(ExecAll(locate, ops), e)
  {
    hide WriterBlock;
    var op := PersistOp(e.transaction, e.channelId, e.topics, e.timestamp);
    assert (ops + [op])[..|ops|] == ops;
    WrittenBlock(e.transaction, e.channelId, e.topics, e);
  }

  lemma TimerFires(locate: Locate, ops: seq<Op>, index: nat)
    requires index < |ExecAll(locate, ops).log|
    ensures ExecAll(locate, ops + [ConfirmOp(index)]) == Timed(ExecAll(locate, ops), ExecAll(locate, ops).log[index])
  {
    assert (ops + [ConfirmOp(index)])[..|ops|] == ops;
  }

  /** The operation that persists an entry. */
  function PersistOf(e: LogEntry): Op {
    PersistOp(e.transaction, e.channelId, e.topics, e.timestamp)
  }

  /** Persist two entries with one id in one channel, then let the timer of the second fire. */
  lemma TwoWithOneId(locate: Locate, e: LogEntry, f: LogEntry)
    requires WellFormed(e) && WellFormed(f) && e.channelId == f.channelId
    requires e.id == f.id == locate(DocumentOf(e)) == locate(DocumentOf(f))
    ensures var r := ExecAll(locate, [PersistOf(e), PersistOf(f), ConfirmOp(1)]);
      && r.log == [e, f] && r.stored == map[e.id := f] && IsConfirmed(r.state.data, e)
      && var (reading, _) := ReadStep(r.state, e.channelId);
      reading == Ok(ReadingOf([f, f], []))
  {
    hide ExecAll, ReadStep, WellFormed, ReadingOf, DocumentOf;
    RunOfTwo(locate, e, f);
    ReadOfTwo(locate, [PersistOf(e), PersistOf(f), ConfirmOp(1)], e, f);
  }

  lemma RunOfTwo(locate: Locate, e: LogEntry, f: LogEntry)
    requires WellFormed(e) && WellFormed(f)
    requires e.id == f.id == locate(DocumentOf(e)) == locate(DocumentOf(f))
    ensures var r := ExecAll(locate, [PersistOf(e), PersistOf(f), ConfirmOp(1)]);
      r.log == [e, f] && r.stored == map[e.id := f] && IsConfirmed(r.state.data, e)
  {
    hide DocumentOf, ExecAll, WellFormed;
    var once, twice := [PersistOf(e)], [PersistOf(e), PersistOf(f)];
    NothingYet(locate);
    HasPayload(e);
    HasPayload(f);
    PersistLogs(locate, [], e);
    assert [] + [PersistOf(e)] == once;
    PersistLogs(locate, once, f);
    assert once + [PersistOf(f)] == twice;
    TimerFires(locate, twice, 1);
    assert twice + [ConfirmOp(1)] == [PersistOf(e), PersistOf(f), ConfirmOp(1)];
    assert ExecAll(locate, twice).log == [] + [e] + [f] == [e, f];
  }

  lemma ReadOfTwo(locate: Locate, ops: seq<Op>, e: LogEntry, f: LogEntry)
    requires ExecAll(locate, ops).log == [e, f] && ExecAll(locate, ops).stored == map[e.id := f]
    requires IsConfirmed(ExecAll(locate, ops).state.data, e) && WellFormed(f) && e.channelId == f.channelId && e.id == f.id
    ensures ReadStep(ExecAll(locate, ops).state, e.channelId).0 == Ok(ReadingOf([f, f], []))
  {
    hide ExecAll, ReadStep, WellFormed, ReadingOf, InChannel, ConfirmedOf;
    var r := ExecAll(locate, ops);
    TwoInChannel(e, f);
    assert Seen(r.stored, [e, f]) == [f, f];
    TwoInChannel(f, f);
    BothConfirmed(r.state.data, f);
    ReadReturns(locate, ops, e.channelId);
    assert AllReadable(r.state.data, [f, f]);
  }

  lemma HasPayload(e: LogEntry)
    requires WellFormed(e)
    ensures Block.HasPayload(e.transaction)
  {
  }

  lemma TwoInChannel(e: LogEntry, f: LogEntry)
    requires e.channelId == f.channelId
    ensures InChannel([e], e.channelId) == [e] && InChannel([e, f], e.channelId) == [e, f]
  {
    assert [e][..0] == [] && [e, f][..1] == [e];
    assert InChannel([], e.channelId) == [];
    assert InChannel([e, f], e.channelId) == [e] + [f];
  }

  lemma BothConfirmed(data: map<string, Entry>, f: LogEntry)
    requires IsConfirmed(data, f)
    ensures ConfirmedOf(data, [f]) == [f] && ConfirmedOf(data, [f, f]) == [f, f]
  {
    assert [f][..0] == [] && [f, f][..1] == [f];
    assert ConfirmedOf(data, []) == [];
    assert ConfirmedOf(data, [f, f]) == [f] + [f];
  }

  /** A document persisted twice and confirmed is returned twice, at one location. */
  lemma PersistedTwiceIsReadTwice(locate: Locate, e: LogEntry, again: int)
    requires WellFormed(e) && e.id == locate(DocumentOf(e))
    ensures var ops := [PersistOf(e), PersistOf(e.(timestamp := again)), ConfirmOp(1)];
      var (reading, _) := ReadStep(ExecAll(locate, ops).state, e.channelId);
      reading.Ok? && reading.value.locations == [e.id, e.id]
  {
    hide ExecAll, ReadStep;
    var f := e.(timestamp := again);
    assert WriterBlock(f) == WriterBlock(e) && WellFormed(f);
    TwoWithOneId(locate, e, f);
    assert ReadingOf([f, f], []).locations == [e.id, e.id];
  }

  /** The id that the storage gives to a text: a digest of its normal form, which has its letters lowered. */
  function AddressOf(text: Block.Document -> string, digest: Normalize.Json -> string): Locate {
    (d: Block.Document) => digest(Normalize.NormalForm(Normalize.Str(text(d))))
  }

  /**
   A transaction that is lost: two documents of one channel whose texts differ in letter
   case only have one id, so the second overwrites the first and is returned twice.
   */
  lemma LetterCaseLosesATransaction(text: Block.Document -> string, digest: Normalize.Json -> string, e: LogEntry, f: LogEntry)
    requires WellFormed(e) && WellFormed(f) && e.channelId == f.channelId
    requires Text.LowerAll(text(DocumentOf(e))) == Text.LowerAll(text(DocumentOf(f)))
    requires e.id == f.id == AddressOf(text, digest)(DocumentOf(e))
    ensures var locate := AddressOf(text, digest);
      var r := ExecAll(locate, [PersistOf(e), PersistOf(f), ConfirmOp(1)]);
      var (reading, _) := ReadStep(r.state, e.channelId);
      && r.log == [e, f] && reading == Ok(ReadingOf([f, f], []))
      && (!ReadsAs(f, e) ==> reading.value != Expected(r.state.data, InChannel(r.log, e.channelId)))
  {
    hide ExecAll, ReadStep, WriterBlock, Stripped, WellFormed;
    var locate := AddressOf(text, digest);
    var v, u := Normalize.Str(text(DocumentOf(e))), Normalize.Str(text(DocumentOf(f)));
    assert Normalize.NormalForm(v) == Normalize.Str(Text.LowerAll(text(DocumentOf(e))));
    assert Normalize.NormalForm(u) == Normalize.Str(Text.LowerAll(text(DocumentOf(f))));
    TwoWithOneId(locate, e, f);
    var ops := [PersistOf(e), PersistOf(f), ConfirmOp(1)];
    TwoInChannel(e, f);
    ReadAgreesIff(locate, ops, e.channelId);
    assert e in [e, f];
  }

  // ---------- reads that are not atomic ----------

  ghost predicate OnlyTimers(ops: seq<Op>) {
    forall i :: 0 <= i < |ops| ==> ops[i].ConfirmOp?
  }

  lemma {:induction false} TimersKeepTheRest(locate: Locate, ops: seq<Op>, timers: seq<Op>)
    requires OnlyTimers(timers)
    ensures var r, later := ExecAll(locate, ops), ExecAll(locate, ops + timers);
      later.log == r.log && later.state == r.state.(data := later.state.data)
  {
    if timers == [] {
      assert ops + timers == ops;
    } else {
      var rest := timers[..|timers| - 1];
      TimersKeepTheRest(locate, ops, rest);
      assert (ops + timers)[..|ops + timers| - 1] == ops + rest;
      assert timers[|timers| - 1].ConfirmOp?;
    }
  }

  /** What a read returns when timers fire between its two awaits. */
  lemma ReadBetweenTimers(locate: Locate, ops: seq<Op>, timers: seq<Op>, c: string)
    requires OnlyTimers(timers)
    ensures var r, later := ExecAll(locate, ops), ExecAll(locate, ops + timers);
      var mine := InChannel(r.log, c);
      var (reading, _) := ReadAcross(r.state, later.state.data, c);
      && (forall e :: e in mine ==> e.id in r.stored && e.id in later.stored)
      && (reading.Ok? ==>
            reading.value == ReadingOf(ConfirmedOf(later.state.data, Visible(later.stored, mine, c)), Remembered(r.state, mine, c)))
      && (AllReadable(r.state.data, Seen(r.stored, mine)) && AllReadable(later.state.data, Seen(later.stored, mine)) ==> reading.Ok?)
  {
    hide Gather, Block.ParseBlock, WriterBlock, WellFormed, IsWriterDocument, Exec, PersistStep, ExecAll, PendingStep, IndexedItems,
      DataAgrees, IndexAgrees, PendingAgrees, OnlyTimers;
    var r, later := ExecAll(locate, ops), ExecAll(locate, ops + timers);
    var mine := InChannel(r.log, c);
    TimersKeepTheRest(locate, ops, timers);
    RunKeepsInv(locate, ops);
    RunKeepsInv(locate, ops + timers);
    MineIsStored(r, c);
    MineIsStored(later, c);
    PendingIsRemembered(r, c);
    var (pending, after) := PendingStep(r.state, c);
    IndexedIsVisible(after, later.state.data, r.log, later.stored, c);
    ReadingOfEntries(ConfirmedOf(later.state.data, Visible(later.stored, mine, c)), Remembered(r.state, mine, c));
  }

  /**
   Why the steps are taken as atomic. When timers fire between the two awaits of a
   read, a location is returned twice iff two entries of the channel have one id with a
   confirmed document of the channel, or the latest transaction, which was pending at
   the first await, is confirmed at the second with a document of the channel.
   */
  lemma ConfirmationBetweenAwaits(locate: Locate, ops: seq<Op>, timers: seq<Op>, c: string)
    requires OnlyTimers(timers)
    ensures var r, later := ExecAll(locate, ops), ExecAll(locate, ops + timers);
      var mine := InChannel(r.log, c);
      var (reading, _) := ReadAcross(r.state, later.state.data, c);
      && (forall e :: e in mine ==> e.id in r.stored && e.id in later.stored)
      && (reading.Ok? ==>
            var visible := Visible(later.stored, mine, c);
            (!NoLocationTwice(reading.value.locations) <==>
              || ConfirmedTwice(later.state.data, visible)
              || (Remembered(r.state, mine, c) != [] && IsConfirmed(later.state.data, mine[|mine| - 1])
                  && exists i :: 0 <= i < |visible| && visible[i].id == mine[|mine| - 1].id)))
  {
    hide OnlyTimers, ReadAcross, ExecAll, InChannel, AllReadable, NoLocationTwice, ConfirmedTwice, Visible, IsConfirmed;
    var r, later := ExecAll(locate, ops), ExecAll(locate, ops + timers);
    var mine := InChannel(r.log, c);
    ReadBetweenTimers(locate, ops, timers, c);
    LocationsTwiceIff(later.state.data, Visible(later.stored, mine, c), Remembered(r.state, mine, c));
  }

  /** The smallest torn read: a channel with one transaction, confirmed between the two awaits, returns its location twice. */
  lemma TornRead(locate: Locate, e: LogEntry)
    requires WellFormed(e) && e.id == locate(DocumentOf(e))
    ensures var r, later := ExecAll(locate, [PersistOf(e)]), ExecAll(locate, [PersistOf(e), ConfirmOp(0)]);
      var (reading, _) := ReadAcross(r.state, later.state.data, e.channelId);
      reading.Ok? && reading.value.locations == [e.id, e.id]
  {
    hide ReadAcross, ExecAll, WellFormed, DocumentOf;
    var ops, timers := [PersistOf(e)], [ConfirmOp(0)];
    assert ops + timers == [PersistOf(e), ConfirmOp(0)];
    RunOfOne(locate, e);
    TornReadOfOne(locate, ops, timers, e);
  }

  lemma RunOfOne(locate: Locate, e: LogEntry)
    requires WellFormed(e) && e.id == locate(DocumentOf(e))
    ensures var r, later := ExecAll(locate, [PersistOf(e)]), ExecAll(locate, [PersistOf(e), ConfirmOp(0)]);
      && r.log == [e] && r.stored == map[e.id := e] && e.channelId in r.state.pending && !IsConfirmed(r.state.data, e)
      && later.log == [e] && later.stored == map[e.id := e] && IsConfirmed(later.state.data, e)
  {
    hide DocumentOf, ExecAll, WellFormed;
    NothingYet(locate);
    HasPayload(e);
    assert [] + [PersistOf(e)] == [PersistOf(e)];
    PersistLogs(locate, [], e);
    TimerFires(locate, [PersistOf(e)], 0);
    assert [PersistOf(e)] + [ConfirmOp(0)] == [PersistOf(e), ConfirmOp(0)];
  }

  lemma TornReadOfOne(locate: Locate, ops: seq<Op>, timers: seq<Op>, e: LogEntry)
    requires OnlyTimers(timers) && WellFormed(e)
    requires var r, later := ExecAll(locate, ops), ExecAll(locate, ops + timers);
      && r.log == [e] && r.stored == map[e.id := e] && e.channelId in r.state.pending && !IsConfirmed(r.state.data, e)
      && later.log == [e] && later.stored == map[e.id := e] && IsConfirmed(later.state.data, e)
    ensures var (reading, _) := ReadAcross(ExecAll(locate, ops).state, ExecAll(locate, ops + timers).state.data, e.channelId);
      reading.Ok? && reading.value.locations == [e.id, e.id]
  {
    hide ReadAcross, ExecAll, WellFormed, InChannel, ConfirmedOf, OnlyTimers;
    var r, later := ExecAll(locate, ops), ExecAll(locate, ops + timers);
    TwoInChannel(e, e);
    BothConfirmed(later.state.data, e);
    assert Seen(later.stored, [e]) == [e] && Seen(r.stored, [e]) == [e];
    ReadBetweenTimers(locate, ops, timers, e.channelId);
    assert Remembered(r.state, [e], e.channelId) == [e];
    assert ReadingOf([e], [e]).locations == [e.id, e.id];
  }
}
