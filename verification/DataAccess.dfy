/**
 The in-memory storage, the index of locations and the store of pending
 transactions, and the reads and writes composed from them.
 */
module DataAccess {
  import opened Wrappers
  import opened TransactionTypes
  import Block

  /** A stored document, pending until the storage confirms it. */
  datatype Entry = Entry(content: Block.Document, confirmed: bool, timestamp: int)

  datatype PendingItem = PendingItem(id: string, timestamp: int, transaction: Persisted, topics: seq<string>)

  /** A transaction found in a confirmed document. */
  datatype Item = Item(location: string, channelId: string, transaction: Persisted)

  datatype Error = NotFound | BadBlock(error: Block.Error) | NotWritten(error: Block.Error)

  type Locate = Block.Document -> string

  /** What the three stores hold. */
  datatype State = State(
    data: map<string, Entry>,
    channelToLocations: map<string, seq<string>>,
    topicToChannels: map<string, seq<string>>,
    pending: map<string, PendingItem>)

  const INITIAL := State(map[], map[], map[], map[])

  /** What a reader receives for a channel. */
  datatype Reading = Reading(transactions: seq<Timestamped>, locations: seq<string>)

  // ---------- documents ----------

  /** The document holds one transaction, in one channel, as the writer makes it. */
  predicate IsWriterDocument(d: Block.Document) {
    && d.Document? && d.header.Some? && d.transactions.Some? && |d.transactions.value| == 1
    && d.header.value.channelIds.Some? && OneChannel(d.header.value.channelIds.value)
  }

  predicate OneChannel(channelIds: map<string, seq<int>>) {
    exists c :: c in channelIds && channelIds == map[c := [0]]
  }

  /** Every stored document was made by the writer. */
  ghost predicate Sound(data: map<string, Entry>) {
    forall id :: id in data ==> IsWriterDocument(data[id].content)
  }

  function TheChannel(channelIds: map<string, seq<int>>): string
    requires OneChannel(channelIds)
  {
    var c :| c in channelIds && channelIds == map[c := [0]];
    assert forall d :: d in channelIds ==> d == c;
    c
  }

  predicate AllStored(data: map<string, Entry>, locations: seq<string>) {
    forall i :: 0 <= i < |locations| ==> locations[i] in data
  }

  function EntriesAt(data: map<string, Entry>, locations: seq<string>): seq<Entry>
    requires AllStored(data, locations)
  {
    seq(|locations|, i requires 0 <= i < |locations| => data[locations[i]])
  }

  /** The items of the confirmed documents among some stored ones, in order; the first that does not parse throws. */
  function Gather(data: map<string, Entry>, locations: seq<string>): Result<seq<Item>, Error>
    requires Sound(data) && AllStored(data, locations)
  {
    if locations == [] then Ok([])
    else
      var n := |locations| - 1;
      match Gather(data, locations[..n])
      case Err(e) => Err(e)
      case Ok(items) =>
        var entry := data[locations[n]];
        if !entry.confirmed then Ok(items)
        else
          match Block.ParseBlock(entry.content)
          case Err(e) => Err(BadBlock(e))
          case Ok(b) =>
            Ok(items + [Item(locations[n], TheChannel(b.header.channelIds), b.transactions[0])])
  }

  function ParseDocuments(data: map<string, Entry>, locations: seq<string>): Result<seq<Item>, Error>
    requires Sound(data)
  {
    if AllStored(data, locations) then Gather(data, locations) else Err(NotFound)
  }

  // ---------- steps ----------

  function AddAll(index: map<string, seq<string>>, keys: seq<string>, value: string): map<string, seq<string>> {
    if keys == [] then index
    else
      var rest, key := AddAll(index, keys[..|keys| - 1], value), keys[|keys| - 1];
      rest[key := Block.Lookup(rest, key) + [value]]
  }

  /** Appends a block of one transaction, remembers it as pending, then indexes it. */
  function PersistStep(locate: Locate, s: State, tx: Persisted, channelId: string, topics: seq<string>, now: int)
    : (Result<string, Error>, State)
  {
    match Block.Push(Block.EMPTY_BLOCK, tx, channelId, topics)
    case Err(e) => (Err(NotWritten(e)), s)
    case Ok(b) =>
      var content := Block.Print(b);
      var id := locate(content);
      (Ok(id), State(
        s.data[id := Entry(content, false, now)],
        s.channelToLocations[channelId := Block.Lookup(s.channelToLocations, channelId) + [id]],
        AddAll(s.topicToChannels, topics, channelId),
        s.pending[channelId := PendingItem(id, now, tx, topics)]))
  }

  /** The timer of an append fires: its own document is stored again, confirmed, with its own timestamp. */
  function ConfirmStep(s: State, id: string, content: Block.Document, appended: int): State {
    s.(data := s.data[id := Entry(content, true, appended)])
  }

  /** The pending transaction of a channel, which is forgotten once its document is confirmed. */
  function PendingStep(s: State, channelId: string): (Result<seq<PendingItem>, Error>, State)
    requires Sound(s.data)
  {
    if channelId !in s.pending then (Ok([]), s)
    else
      match ParseDocuments(s.data, [s.pending[channelId].id])
      case Err(e) => (Err(e), s)
      case Ok(items) =>
        if items != [] then (Ok([]), s.(pending := s.pending - {channelId})) else (Ok([s.pending[channelId]]), s)
  }

  function OfChannel(items: seq<Item>, channelId: string): seq<Item> {
    if items == [] then []
    else
      var rest, last := OfChannel(items[..|items| - 1], channelId), items[|items| - 1];
      if last.channelId == channelId then rest + [last] else rest
  }

  function IndexedItems(s: State, channelId: string): Result<seq<Item>, Error>
    requires Sound(s.data)
  {
    match ParseDocuments(s.data, Block.Lookup(s.channelToLocations, channelId))
    case Err(e) => Err(e)
    case Ok(items) => Ok(OfChannel(items, channelId))
  }

  /** Empty strings become absent when an indexed transaction is returned. */
  function Stripped(tx: Persisted): Persisted {
    Persisted(if Present(tx.data) then tx.data else None,
              if HasCipher(tx.encryptedData) then tx.encryptedData else None,
              tx.keys,
              if Present(tx.encryptionMethod) then tx.encryptionMethod else None)
  }

  /** An indexed transaction is confirmed; the in-memory storage gives it no block timestamp. */
  function Confirmed(item: Item): Timestamped {
    Timestamped(CONFIRMED, 0, Stripped(item.transaction))
  }

  function Pending(item: PendingItem): Timestamped {
    Timestamped(PENDING, item.timestamp, item.transaction)
  }

  function MakeReading(items: seq<Item>, pending: seq<PendingItem>): Reading {
    Reading(
      seq(|items|, i requires 0 <= i < |items| => Confirmed(items[i]))
        + seq(|pending|, i requires 0 <= i < |pending| => Pending(pending[i])),
      seq(|items|, i requires 0 <= i < |items| => items[i].location)
        + seq(|pending|, i requires 0 <= i < |pending| => pending[i].id))
  }

  /** A read, with the storage seen by its second await. An atomic read sees no change in between. */
  function ReadAcross(s: State, later: map<string, Entry>, channelId: string): (Result<Reading, Error>, State)
    requires Sound(s.data) && Sound(later)
  {
    var (pending, after) := PendingStep(s, channelId);
    var end := after.(data := later);
    match pending
    case Err(e) => (Err(e), end)
    case Ok(items) =>
      match IndexedItems(end, channelId)
      case Err(e) => (Err(e), end)
      case Ok(indexed) => (Ok(MakeReading(indexed, items)), end)
  }

  function ReadStep(s: State, channelId: string): (Result<Reading, Error>, State)
    requires Sound(s.data)
  {
    ReadAcross(s, s.data, channelId)
  }

  lemma PersistKeepsSound(locate: Locate, s: State, tx: Persisted, channelId: string, topics: seq<string>, now: int)
    requires Sound(s.data)
    ensures Sound(PersistStep(locate, s, tx, channelId, topics, now).1.data)
  {
    var r := Block.Push(Block.EMPTY_BLOCK, tx, channelId, topics);
    if r.Ok? {
      assert Block.Lookup(Block.EMPTY_BLOCK.header.channelIds, channelId) + [0] == [0];
      assert channelId in r.value.header.channelIds && r.value.header.channelIds == map[channelId := [0]];
    }
  }

  // ---------- the program's own form ----------

  class MockStorage {
    const locate: Locate
    var data: map<string, Entry>

    constructor (locate: Locate)
      ensures data == map[] && this.locate == locate
    {
      this.locate := locate;
      data := map[];
    }

    method Append(content: Block.Document, now: int) returns (id: string)
      modifies this
      ensures id == locate(content) && data == old(data)[id := Entry(content, false, now)]
    {
      id := locate(content);
      data := data[id := Entry(content, false, now)];
    }

    /** The timer that fires after an append, and sets the entry that this append has made. */
    method Confirm(id: string, content: Block.Document, appended: int)
      modifies this
      ensures data == old(data)[id := Entry(content, true, appended)]
    {
      data := data[id := Entry(content, true, appended)];
    }

    method ReadMany(ids: seq<string>) returns (r: Result<seq<Entry>, Error>)
      ensures r == if AllStored(data, ids) then Ok(EntriesAt(data, ids)) else Err(NotFound)
    {
      var entries: seq<Entry> := [];
      for i := 0 to |ids|
        invariant |entries| == i
        invariant forall k :: 0 <= k < i ==> ids[k] in data && entries[k] == data[ids[k]]
      {
        if ids[i] !in data {
          return Err(NotFound);
        }
        entries := entries + [data[ids[i]]];
      }
      assert AllStored(data, ids) && entries == EntriesAt(data, ids);
      r := Ok(entries);
    }
  }

  class InMemoryIndexer {
    const storageRead: MockStorage
    var channelToLocations: map<string, seq<string>>
    var topicToChannels: map<string, seq<string>>

    constructor (storageRead: MockStorage)
      ensures this.storageRead == storageRead && channelToLocations == map[] && topicToChannels == map[]
    {
      this.storageRead := storageRead;
      channelToLocations, topicToChannels := map[], map[];
    }

    method AddIndex(channelId: string, topics: seq<string>, location: string)
      modifies this
      ensures channelToLocations
           == old(channelToLocations)[channelId := Block.Lookup(old(channelToLocations), channelId) + [location]]
      ensures topicToChannels == AddAll(old(topicToChannels), topics, channelId)
    {
      channelToLocations := channelToLocations[channelId := Block.Lookup(channelToLocations, channelId) + [location]];
      ghost var before := topicToChannels;
      for i := 0 to |topics|
        invariant topicToChannels == AddAll(before, topics[..i], channelId)
        invariant channelToLocations
               == old(channelToLocations)[channelId := Block.Lookup(old(channelToLocations), channelId) + [location]]
      {
        assert topics[..i + 1][..i] == topics[..i];
        topicToChannels := topicToChannels[topics[i] := Block.Lookup(topicToChannels, topics[i]) + [channelId]];
      }
      assert topics[..|topics|] == topics;
    }

    method ParseLocations(locations: seq<string>) returns (r: Result<seq<Item>, Error>)
      requires Sound(storageRead.data)
      ensures r == ParseDocuments(storageRead.data, locations)
    {
      var entries := storageRead.ReadMany(locations);
      if entries.Err? {
        return Err(entries.error);
      }
      var items: seq<Item> := [];
      for i := 0 to |locations|
        invariant Gather(storageRead.data, locations[..i]) == Ok(items)
      {
        assert locations[..i + 1][..i] == locations[..i];
        var entry := entries.value[i];
        if entry.confirmed {
          var parsed := Block.ParseBlock(entry.content);
          if parsed.Err? {
            GatherStops(storageRead.data, locations, i + 1);
            return Err(BadBlock(parsed.error));
          }
          var b := parsed.value;
          items := items + [Item(locations[i], TheChannel(b.header.channelIds), b.transactions[0])];
        }
      }
      assert locations[..|locations|] == locations;
      r := Ok(items);
    }

    method GetTransactionsByStorageLocation(hash: string) returns (r: Result<seq<Item>, Error>)
      requires Sound(storageRead.data)
      ensures r == ParseDocuments(storageRead.data, [hash])
    {
      r := ParseLocations([hash]);
    }

    method GetTransactionsByChannelId(channelId: string) returns (r: Result<seq<Item>, Error>)
      requires Sound(storageRead.data)
      ensures r == IndexedItems(State(storageRead.data, channelToLocations, topicToChannels, map[]), channelId)
    {
      var parsed := ParseLocations(Block.Lookup(channelToLocations, channelId));
      if parsed.Err? {
        return Err(parsed.error);
      }
      r := Ok(OfChannel(parsed.value, channelId));
    }
  }

  lemma {:induction false} GatherStops(data: map<string, Entry>, locations: seq<string>, n: nat)
    requires Sound(data) && AllStored(data, locations) && n <= |locations|
    requires Gather(data, locations[..n]).Err?
    ensures Gather(data, locations) == Gather(data, locations[..n])
    decreases |locations|
  {
    if n == |locations| {
      assert locations[..n] == locations;
    } else {
      var shorter := locations[..|locations| - 1];
      assert shorter[..n] == locations[..n];
      GatherStops(data, shorter, n);
    }
  }

  class PendingStore {
    var pending: map<string, PendingItem>

    constructor ()
      ensures pending == map[]
    {
      pending := map[];
    }

    method Add(channelId: string, item: PendingItem)
      modifies this
      ensures pending == old(pending)[channelId := item]
    {
      pending := pending[channelId := item];
    }

    method Remove(channelId: string)
      modifies this
      ensures pending == old(pending) - {channelId}
    {
      pending := pending - {channelId};
    }
  }

  class MockDataAccess {
    const storage: MockStorage
    const dataIndex: InMemoryIndexer
    const pendingStore: PendingStore

    ghost predicate Valid()
      reads storage
    {
      dataIndex.storageRead == storage && Sound(storage.data)
    }

    function Abs(): State
      reads storage, dataIndex, pendingStore
    {
      State(storage.data, dataIndex.channelToLocations, dataIndex.topicToChannels, pendingStore.pending)
    }

    constructor (locate: Locate)
      ensures Valid() && Abs() == INITIAL && storage.locate == locate
      ensures fresh(storage) && fresh(dataIndex) && fresh(pendingStore)
    {
      var s := new MockStorage(locate);
      storage := s;
      dataIndex := new InMemoryIndexer(s);
      pendingStore := new PendingStore();
    }

    method PersistTransaction(tx: Persisted, channelId: string, topics: seq<string>, now: int) returns (r: Result<string, Error>)
      requires Valid()
      modifies storage, dataIndex, pendingStore
      ensures Valid()
      ensures (r, Abs()) == PersistStep(storage.locate, old(Abs()), tx, channelId, topics, now)
    {
      PersistKeepsSound(storage.locate, Abs(), tx, channelId, topics, now);
      var updatedBlock := Block.PushTransaction(Block.EMPTY_BLOCK, tx, channelId, topics);
      if updatedBlock.Err? {
        return Err(NotWritten(updatedBlock.error));
      }
      var id := storage.Append(Block.Print(updatedBlock.value), now);
      pendingStore.Add(channelId, PendingItem(id, now, tx, topics));
      dataIndex.AddIndex(channelId, topics, id);
      r := Ok(id);
    }

    method Confirm(id: string, content: Block.Document, appended: int)
      requires Valid() && IsWriterDocument(content)
      modifies storage
      ensures Valid() && Abs() == ConfirmStep(old(Abs()), id, content, appended)
    {
      storage.Confirm(id, content, appended);
    }

    method GetPending(channelId: string) returns (r: Result<seq<PendingItem>, Error>)
      requires Valid()
      modifies pendingStore
      ensures Valid() && (r, Abs()) == PendingStep(old(Abs()), channelId)
    {
      if channelId !in pendingStore.pending {
        return Ok([]);
      }
      var item := pendingStore.pending[channelId];
      var found := dataIndex.GetTransactionsByStorageLocation(item.id);
      if found.Err? {
        return Err(found.error);
      }
      // the pending transaction is confirmed: forget it
      if |found.value| > 0 {
        pendingStore.Remove(channelId);
        return Ok([]);
      }
      r := Ok([item]);
    }

    method GetTransactionsByChannelId(channelId: string) returns (r: Result<Reading, Error>)
      requires Valid()
      modifies pendingStore
      ensures Valid() && (r, Abs()) == ReadStep(old(Abs()), channelId)
    {
      var pending := GetPending(channelId);
      if pending.Err? {
        return Err(pending.error);
      }
      var indexed := dataIndex.GetTransactionsByChannelId(channelId);
      if indexed.Err? {
        return Err(indexed.error);
      }
      r := Ok(MakeReading(indexed.value, pending.value));
    }
  }
}
