/** A block of transactions with its header: channels and topics by position. */
module Block {
  import opened Sequences
  import opened Wrappers
  import opened TransactionTypes
  import MultiFormat
  import opened Text

  datatype Header = Header(channelIds: map<string, seq<int>>, topics: map<string, seq<string>>, version: string)

  datatype Block = Block(header: Header, transactions: seq<Persisted>)

  /** A parsed JSON document, of which any part may be missing. */
  datatype Document = NotJson | Document(header: Option<RawHeader>, transactions: Option<seq<Persisted>>)

  datatype RawHeader = RawHeader(
    channelIds: Option<map<string, seq<int>>>,
    topics: Option<map<string, seq<string>>>,
    version: Option<string>)

  datatype Error =
    | ImpossibleToParse
    | NotABlock
    | NotAHeader
    | VersionNotSupported
    | BadTransactions
    | BadChannelIds
    | BadPositions
    | BadTopicChannels
    | BadTopics
    | MissingPayload

  const VERSION := "0.1.0"

  const EMPTY_BLOCK := Block(Header(map[], map[], VERSION), [])

  function Lookup<V>(m: map<string, seq<V>>, key: string): seq<V> {
    if key in m then m[key] else []
  }

  predicate IsHash(s: string) {
    MultiFormat.FindForString(MultiFormat.HASH_FORMAT, s).Some?
  }

  predicate HasPayload(tx: Persisted) {
    Present(tx.data) || HasCipher(tx.encryptedData)
  }

  predicate AllPayloads(txs: seq<Persisted>) {
    forall i :: 0 <= i < |txs| ==> HasPayload(txs[i])
  }

  predicate AllHashes(ids: set<string>) {
    forall c :: c in ids ==> IsHash(c)
  }

  predicate PositionsInside(channelIds: map<string, seq<int>>, n: nat) {
    forall c :: c in channelIds ==> forall i :: 0 <= i < |channelIds[c]| ==> 0 <= channelIds[c][i] < n
  }

  predicate TopicsAreHashes(topics: map<string, seq<string>>) {
    forall c :: c in topics ==> forall i :: 0 <= i < |topics[c]| ==> IsHash(topics[c][i])
  }

  // ---------- parsing and printing ----------

  function ParseBlock(d: Document): Result<Block, Error> {
    if d.NotJson? then Err(ImpossibleToParse)
    else if d.header.None? || d.transactions.None? then Err(NotABlock)
    else
      var h, txs := d.header.value, d.transactions.value;
      if h.topics.None? || h.channelIds.None? || !Present(h.version) then Err(NotAHeader)
      else if h.version.value != VERSION then Err(VersionNotSupported)
      else if !AllPayloads(txs) then Err(BadTransactions)
      else if !AllHashes(h.channelIds.value.Keys) then Err(BadChannelIds)
      else if !PositionsInside(h.channelIds.value, |txs|) then Err(BadPositions)
      else if !AllHashes(h.topics.value.Keys) then Err(BadTopicChannels)
      else if !TopicsAreHashes(h.topics.value) then Err(BadTopics)
      else Ok(Block(Header(h.channelIds.value, h.topics.value, h.version.value), txs))
  }

  /** The document that `JSON.stringify` writes and `JSON.parse` reads back. */
  function Print(b: Block): Document {
    Document(Some(RawHeader(Some(b.header.channelIds), Some(b.header.topics), Some(b.header.version))), Some(b.transactions))
  }

  // ---------- pushing ----------

  function AddTopics(topics: map<string, seq<string>>, channelId: string, added: seq<string>): map<string, seq<string>> {
    if added == [] then topics else topics[channelId := Lookup(topics, channelId) + added]
  }

  function Push(b: Block, tx: Persisted, channelId: string, topics: seq<string>): Result<Block, Error> {
    if tx.data.None? && !HasCipher(tx.encryptedData) then Err(MissingPayload)
    else
      var h := b.header;
      Ok(Block(
        Header(h.channelIds[channelId := Lookup(h.channelIds, channelId) + [|b.transactions|]],
               AddTopics(h.topics, channelId, topics), h.version),
        b.transactions + [tx]))
  }

  /** Works on a copy of the block, adding the topics one at a time. */
  method PushTransaction(b: Block, tx: Persisted, channelId: string, topics: seq<string>) returns (r: Result<Block, Error>)
    ensures r == Push(b, tx, channelId, topics)
  {
    if tx.data.None? && !HasCipher(tx.encryptedData) {
      return Err(MissingPayload);
    }
    var newTransactionPosition := |b.transactions|;
    var channelIds := b.header.channelIds[channelId := Lookup(b.header.channelIds, channelId) + [newTransactionPosition]];
    var allTopics := b.header.topics;
    for i := 0 to |topics|
      invariant allTopics == AddTopics(b.header.topics, channelId, topics[..i])
    {
      AddTopicsSnoc(b.header.topics, channelId, topics[..i], topics[i]);
      assert topics[..i + 1] == topics[..i] + [topics[i]];
      allTopics := allTopics[channelId := Lookup(allTopics, channelId) + [topics[i]]];
    }
    assert topics[..|topics|] == topics;
    r := Ok(Block(Header(channelIds, allTopics, b.header.version), b.transactions + [tx]));
  }

  lemma AddTopicsSnoc(topics: map<string, seq<string>>, channelId: string, added: seq<string>, topic: string)
    ensures var before := AddTopics(topics, channelId, added);
      AddTopics(topics, channelId, added + [topic]) == before[channelId := Lookup(before, channelId) + [topic]]
  {
    var listed := Lookup(topics, channelId);
    assert listed + added + [topic] == listed + (added + [topic]);
    assert added == [] ==> listed + (added + [topic]) == listed + [topic];
    var before := AddTopics(topics, channelId, added);
    assert before[channelId := listed + (added + [topic])] == topics[channelId := listed + (added + [topic])];
  }

  // ---------- blocks built by pushes ----------

  datatype Pushed = Pushed(transaction: Persisted, channelId: string, topics: seq<string>)

  /** The block after a run of pushes; a push that throws changes nothing. */
  function Built(pushes: seq<Pushed>): Block {
    if pushes == [] then EMPTY_BLOCK
    else
      var p := pushes[|pushes| - 1];
      var before := Built(pushes[..|pushes| - 1]);
      match Push(before, p.transaction, p.channelId, p.topics)
      case Ok(after) => after
      case Err(_) => before
  }

  /** The pushes that succeed. */
  function Accepted(pushes: seq<Pushed>): seq<Pushed> {
    if pushes == [] then []
    else
      var rest, p := Accepted(pushes[..|pushes| - 1]), pushes[|pushes| - 1];
      if p.transaction.data.None? && !HasCipher(p.transaction.encryptedData) then rest else rest + [p]
  }

  /** The positions of the pushes to some channels, in order. */
  function PositionsOf(pushes: seq<Pushed>, ids: set<string>): seq<int> {
    if pushes == [] then []
    else
      var rest, n := PositionsOf(pushes[..|pushes| - 1], ids), |pushes| - 1;
      if pushes[n].channelId in ids then rest + [n] else rest
  }

  lemma {:induction false} PositionsAreOrdered(pushes: seq<Pushed>, ids: set<string>)
    ensures var ps := PositionsOf(pushes, ids);
      && (forall i, j :: 0 <= i < j < |ps| ==> ps[i] < ps[j])
      && (forall p :: p in ps <==> 0 <= p < |pushes| && pushes[p].channelId in ids)
  {
    if pushes != [] {
      PositionsAreOrdered(pushes[..|pushes| - 1], ids);
      var rest := PositionsOf(pushes[..|pushes| - 1], ids);
      assert forall i :: 0 <= i < |rest| ==> rest[i] in rest;
    }
  }

  lemma PositionsOfSnoc(pushes: seq<Pushed>, p: Pushed, ids: set<string>)
    ensures PositionsOf(pushes + [p], ids)
         == PositionsOf(pushes, ids) + (if p.channelId in ids then [|pushes|] else [])
  {
    assert (pushes + [p])[..|pushes|] == pushes;
  }

  ghost predicate PushesTo(pushes: seq<Pushed>, c: string) {
    exists i :: 0 <= i < |pushes| && pushes[i].channelId == c
  }

  lemma PushesToSnoc(pushes: seq<Pushed>, p: Pushed, c: string)
    ensures PushesTo(pushes + [p], c) <==> PushesTo(pushes, c) || p.channelId == c
  {
    var all := pushes + [p];
    assert all[|pushes|] == p && forall i :: 0 <= i < |pushes| ==> all[i] == pushes[i];
  }

  /** A built block holds the accepted transactions in order, each channel with exactly its own positions. */
  lemma {:induction false} BuiltBlockIsExact(pushes: seq<Pushed>)
    ensures var b, ok := Built(pushes), Accepted(pushes);
      && |b.transactions| == |ok|
      && (forall i :: 0 <= i < |ok| ==> b.transactions[i] == ok[i].transaction)
      && (forall c :: c in b.header.channelIds <==> PushesTo(ok, c))
      && (forall c :: Lookup(b.header.channelIds, c) == PositionsOf(ok, {c}))
      && b.header.version == VERSION
  {
    if pushes != [] {
      var rest, p := pushes[..|pushes| - 1], pushes[|pushes| - 1];
      BuiltBlockIsExact(rest);
      var b, ok := Built(pushes), Accepted(pushes);
      if ok != Accepted(rest) {
        hide Push, PositionsOf, PushesTo;
        PushFacts(Built(rest), p);
        assert ok == Accepted(rest) + [p];
        forall c ensures (c in b.header.channelIds <==> PushesTo(ok, c)) && Lookup(b.header.channelIds, c) == PositionsOf(ok, {c}) {
          PositionsOfSnoc(Accepted(rest), p, {c});
          PushesToSnoc(Accepted(rest), p, c);
        }
      }
    }
  }

  lemma PushFacts(b: Block, p: Pushed)
    ensures match Push(b, p.transaction, p.channelId, p.topics)
      case Err(_) => p.transaction.data.None? && !HasCipher(p.transaction.encryptedData)
      case Ok(after) =>
        && !(p.transaction.data.None? && !HasCipher(p.transaction.encryptedData))
        && after.transactions == b.transactions + [p.transaction]
        && after.header.version == b.header.version
        && after.header.topics == AddTopics(b.header.topics, p.channelId, p.topics)
        && after.header.channelIds.Keys == b.header.channelIds.Keys + {p.channelId}
        && forall c :: Lookup(after.header.channelIds, c)
             == Lookup(b.header.channelIds, c) + (if c == p.channelId then [|b.transactions|] else [])
  {
  }

  /** The channel lists the position. */
  ghost predicate Owns(b: Block, c: string, p: int) {
    p in Lookup(b.header.channelIds, c)
  }

  ghost predicate Owned(b: Block, p: int) {
    exists c :: Owns(b, c, p)
  }

  /** The channel position lists partition the positions of the block: every position has exactly one channel, listed once. */
  lemma PositionsPartitionTheBlock(pushes: seq<Pushed>)
    ensures var b := Built(pushes);
      && (forall c, p :: Owns(b, c, p) ==> 0 <= p < |b.transactions|)
      && (forall p :: 0 <= p < |b.transactions| ==> Owned(b, p))
      && (forall c, d, p :: Owns(b, c, p) && Owns(b, d, p) ==> c == d)
      && (forall c, i, j :: 0 <= i < j < |Lookup(b.header.channelIds, c)| ==>
            Lookup(b.header.channelIds, c)[i] < Lookup(b.header.channelIds, c)[j])
  {
    BuiltBlockIsExact(pushes);
    var b, ok := Built(pushes), Accepted(pushes);
    forall c, p ensures Owns(b, c, p) <==> 0 <= p < |ok| && ok[p].channelId == c {
      PositionsAreOrdered(ok, {c});
    }
    forall c, i, j | 0 <= i < j < |Lookup(b.header.channelIds, c)|
      ensures Lookup(b.header.channelIds, c)[i] < Lookup(b.header.channelIds, c)[j]
    {
      PositionsAreOrdered(ok, {c});
    }
    forall p | 0 <= p < |b.transactions| ensures Owned(b, p) {
      assert Owns(b, ok[p].channelId, p);
    }
  }

  // ---------- position queries ----------

  /** The decimal text of a position. */
  function Decimal(n: nat): string {
    if n < 10 then [('0' as int + n) as char] else Decimal(n / 10) + [('0' as int + n % 10) as char]
  }

  function PositionText(n: int): string {
    if n < 0 then "-" + Decimal(-n) else Decimal(n)
  }

  predicate TextLessOrEqual(a: int, b: int) {
    LessOrEqual(PositionText(a), PositionText(b))
  }

  function InsertAsText(s: seq<int>, x: int): seq<int> {
    if s != [] && !TextLessOrEqual(s[|s| - 1], x) then InsertAsText(s[..|s| - 1], x) + [s[|s| - 1]] else s + [x]
  }

  /** The default sort of an array of numbers, which compares their texts. */
  function SortAsText(s: seq<int>): seq<int> {
    if s == [] then [] else InsertAsText(SortAsText(s[..|s| - 1]), s[|s| - 1])
  }

  /** The distinct elements, in order of first occurrence. */
  function Distinct(s: seq<int>): seq<int> {
    if s == [] then []
    else
      var rest, last := Distinct(s[..|s| - 1]), s[|s| - 1];
      if last in rest then rest else rest + [last]
  }

  /** The position lists of the channels that exist, one after the other. */
  function AllPositions(b: Block, ids: seq<string>): seq<int> {
    if ids == [] then [] else AllPositions(b, ids[..|ids| - 1]) + Lookup(b.header.channelIds, ids[|ids| - 1])
  }

  function GetTransactionPositionsByChannelIds(b: Block, ids: seq<string>): seq<int> {
    SortAsText(Distinct(AllPositions(b, ids)))
  }

  /** The transactions at some positions; positions outside the block are dropped. */
  function At(b: Block, positions: seq<int>): seq<Persisted> {
    if positions == [] then []
    else
      var rest, p := At(b, positions[..|positions| - 1]), positions[|positions| - 1];
      if 0 <= p < |b.transactions| then rest + [b.transactions[p]] else rest
  }

  function GetTransactionsByPositions(b: Block, positions: seq<int>): seq<Persisted> {
    At(b, SortAsText(Distinct(positions)))
  }

  lemma {:induction false} InsertAsTextAdds(s: seq<int>, x: int)
    ensures multiset(InsertAsText(s, x)) == multiset(s) + multiset{x}
  {
    hide TextLessOrEqual;
    if s != [] && !TextLessOrEqual(s[|s| - 1], x) {
      InsertAsTextAdds(s[..|s| - 1], x);
      SplitLast(s);
    }
  }

  lemma {:induction false} SortAsTextPermutes(s: seq<int>)
    ensures multiset(SortAsText(s)) == multiset(s)
  {
    if s != [] {
      hide InsertAsText;
      SortAsTextPermutes(s[..|s| - 1]);
      InsertAsTextAdds(SortAsText(s[..|s| - 1]), s[|s| - 1]);
      SplitLast(s);
    }
  }

  ghost predicate NoRepeat(s: seq<int>) {
    forall p :: multiset(s)[p] <= 1
  }

  lemma {:induction false} DistinctIsASet(s: seq<int>)
    ensures NoRepeat(Distinct(s))
    ensures forall p :: p in Distinct(s) <==> p in s
  {
    if s != [] {
      DistinctIsASet(s[..|s| - 1]);
      assert s == s[..|s| - 1] + [s[|s| - 1]];
    }
  }

  /** Two lists without repetition and with the same members are permutations of each other. */
  lemma SameSetPermutes(a: seq<int>, b: seq<int>)
    requires NoRepeat(a) && NoRepeat(b) && forall p :: p in a <==> p in b
    ensures multiset(a) == multiset(b)
  {
    forall p ensures multiset(a)[p] == multiset(b)[p] {
      assert p in multiset(a) <==> p in a;
      assert p in multiset(b) <==> p in b;
    }
  }

  lemma AtMiddle(b: Block, a: seq<int>, p: int, c: seq<int>)
    ensures multiset(At(b, a + [p] + c)) == multiset(At(b, a + c)) + multiset(At(b, [p]))
  {
    hide At;
    AtConcat(b, a + [p], c);
    AtConcat(b, a, [p]);
    AtConcat(b, a, c);
  }

  /** What is selected depends on the positions as a multiset only. */
  lemma {:induction false} AtPermutes(b: Block, s: seq<int>, t: seq<int>)
    requires multiset(s) == multiset(t)
    ensures multiset(At(b, s)) == multiset(At(b, t))
    decreases |s|
  {
    if s == [] {
      assert |t| == |multiset(t)| == 0;
    } else {
      hide At;
      var s0, p := s[..|s| - 1], s[|s| - 1];
      assert s == s0 + [p];
      assert p in multiset(t);
      var k :| 0 <= k < |t| && t[k] == p;
      var a, c := t[..k], t[k + 1..];
      assert t == a + [p] + c;
      WithoutOne(s0, p, a, c);
      AtMiddle(b, a, p, c);
      AtConcat(b, s0, [p]);
      AtPermutes(b, s0, a + c);
    }
  }

  lemma {:induction false} AtConcat(b: Block, s: seq<int>, t: seq<int>)
    ensures At(b, s + t) == At(b, s) + At(b, t)
  {
    if t == [] {
      assert s + t == s;
    } else {
      assert (s + t)[..|s + t| - 1] == s + t[..|t| - 1];
      AtConcat(b, s, t[..|t| - 1]);
    }
  }

  /** The transactions pushed to some channels, in order. */
  function PushedTo(pushes: seq<Pushed>, ids: set<string>): seq<Persisted> {
    if pushes == [] then []
    else
      var rest, p := PushedTo(pushes[..|pushes| - 1], ids), pushes[|pushes| - 1];
      if p.channelId in ids then rest + [p.transaction] else rest
  }

  lemma {:induction false} AtPositionsOf(b: Block, pushes: seq<Pushed>, ids: set<string>)
    requires |b.transactions| >= |pushes|
    requires forall i :: 0 <= i < |pushes| ==> b.transactions[i] == pushes[i].transaction
    ensures At(b, PositionsOf(pushes, ids)) == PushedTo(pushes, ids)
  {
    if pushes != [] {
      var n := |pushes| - 1;
      var rest := PositionsOf(pushes[..n], ids);
      AtPositionsOf(b, pushes[..n], ids);
      assert (rest + [n])[..|rest|] == rest;
    }
  }

  lemma {:induction false} AllPositionsMembers(b: Block, ids: seq<string>)
    ensures forall p :: p in AllPositions(b, ids) <==> exists i :: 0 <= i < |ids| && p in Lookup(b.header.channelIds, ids[i])
  {
    if ids != [] {
      var rest, last := ids[..|ids| - 1], ids[|ids| - 1];
      AllPositionsMembers(b, rest);
      forall p ensures p in AllPositions(b, ids) <==> exists i :: 0 <= i < |ids| && p in Lookup(b.header.channelIds, ids[i]) {
        if i :| 0 <= i < |ids| && p in Lookup(b.header.channelIds, ids[i]) {
          assert i < |rest| ==> rest[i] == ids[i];
        }
        if i :| 0 <= i < |rest| && p in Lookup(b.header.channelIds, rest[i]) {
          assert ids[i] == rest[i];
        }
      }
    }
  }

  lemma StrictlyIncreasingHasNoRepeat(s: seq<int>)
    requires forall i, j :: 0 <= i < j < |s| ==> s[i] < s[j]
    ensures NoRepeat(s)
  {
    if s != [] {
      var rest := s[..|s| - 1];
      StrictlyIncreasingHasNoRepeat(rest);
      assert s == rest + [s[|s| - 1]];
      assert s[|s| - 1] !in rest;
    }
  }

  /** The positions found for some channels, before they are sorted, are theirs, each once. */
  lemma FoundPositions(pushes: seq<Pushed>, ids: seq<string>)
    ensures var found, wanted := Distinct(AllPositions(Built(pushes), ids)), PositionsOf(Accepted(pushes), Asked(ids));
      multiset(found) == multiset(wanted) && NoRepeat(found) && NoRepeat(wanted)
  {
    var b, ok, asked := Built(pushes), Accepted(pushes), Asked(ids);
    BuiltBlockIsExact(pushes);
    AllPositionsMembers(b, ids);
    var all, wanted := AllPositions(b, ids), PositionsOf(ok, asked);
    PositionsAreOrdered(ok, asked);
    StrictlyIncreasingHasNoRepeat(wanted);
    forall p ensures p in all <==> p in wanted {
      forall i | 0 <= i < |ids| ensures p in Lookup(b.header.channelIds, ids[i]) <==> 0 <= p < |ok| && ok[p].channelId == ids[i] {
        PositionsAreOrdered(ok, {ids[i]});
      }
    }
    DistinctIsASet(all);
    SameSetPermutes(Distinct(all), wanted);
  }

  function Asked(ids: seq<string>): set<string> {
    set i | 0 <= i < |ids| :: ids[i]
  }

  /** The transactions that a query of some channels returns. */
  function Query(b: Block, ids: seq<string>): seq<Persisted> {
    GetTransactionsByPositions(b, GetTransactionPositionsByChannelIds(b, ids))
  }

  /**
   Querying any channels, repeated or unknown ones included, returns each of their
   transactions exactly once.
   */
  lemma QueryReturnsEachTransactionOnce(pushes: seq<Pushed>, ids: seq<string>)
    ensures multiset(Query(Built(pushes), ids)) == multiset(PushedTo(Accepted(pushes), Asked(ids)))
  {
    hide Built, Accepted, AllPositions, Distinct, SortAsText, PositionsOf, PushedTo, NoRepeat, At;
    var b, ok := Built(pushes), Accepted(pushes);
    var found, wanted := Distinct(AllPositions(b, ids)), PositionsOf(ok, Asked(ids));
    FoundPositions(pushes, ids);
    var positions := GetTransactionPositionsByChannelIds(b, ids);
    SortAsTextPermutes(found);
    NoRepeatOfPermutation(found, positions);
    SortedSetAgain(positions);
    AtPermutes(b, SortAsText(Distinct(positions)), wanted);
    BuiltBlockIsExact(pushes);
    AtPositionsOf(b, ok, Asked(ids));
  }

  lemma NoRepeatOfPermutation(a: seq<int>, b: seq<int>)
    requires NoRepeat(a) && multiset(a) == multiset(b)
    ensures NoRepeat(b)
  {
  }

  lemma SortedSetAgain(s: seq<int>)
    requires NoRepeat(s)
    ensures multiset(SortAsText(Distinct(s))) == multiset(s)
  {
    DistinctIsASet(s);
    SameSetPermutes(Distinct(s), s);
    SortAsTextPermutes(Distinct(s));
  }

  // ---------- parsing what was printed ----------

  /** What the format asks of the data of a push. */
  predicate WellFormed(p: Pushed) {
    && HasPayload(p.transaction) && IsHash(p.channelId)
    && forall i :: 0 <= i < |p.topics| ==> IsHash(p.topics[i])
  }

  /** Some push gives this topic to the channel. */
  ghost predicate GivesTopic(pushes: seq<Pushed>, c: string, t: string) {
    exists i :: 0 <= i < |pushes| && pushes[i].channelId == c && t in pushes[i].topics
  }

  lemma GivesTopicSnoc(pushes: seq<Pushed>, p: Pushed, c: string, t: string)
    ensures GivesTopic(pushes + [p], c, t) <==> GivesTopic(pushes, c, t) || (p.channelId == c && t in p.topics)
  {
    var all := pushes + [p];
    assert all[|pushes|] == p && forall i :: 0 <= i < |pushes| ==> all[i] == pushes[i];
  }

  lemma AddTopicsFacts(topics: map<string, seq<string>>, channelId: string, added: seq<string>)
    ensures var after := AddTopics(topics, channelId, added);
      && (forall c, t :: t in Lookup(after, c) <==> t in Lookup(topics, c) || (c == channelId && t in added))
      && after.Keys <= topics.Keys + {channelId}
  {
    var after := AddTopics(topics, channelId, added);
    assert Lookup(after, channelId) == Lookup(topics, channelId) + added;
    assert forall c :: c != channelId ==> Lookup(after, c) == Lookup(topics, c);
  }

  lemma {:induction false} BuiltTopics(pushes: seq<Pushed>)
    ensures var topics, ok := Built(pushes).header.topics, Accepted(pushes);
      && (forall c, t :: t in Lookup(topics, c) <==> GivesTopic(ok, c, t))
      && (forall c :: c in topics ==> PushesTo(ok, c))
  {
    if pushes != [] {
      var rest, p := pushes[..|pushes| - 1], pushes[|pushes| - 1];
      BuiltTopics(rest);
      var topics, ok := Built(pushes).header.topics, Accepted(pushes);
      if ok != Accepted(rest) {
        hide Push, AddTopics;
        PushFacts(Built(rest), p);
        AddTopicsFacts(Built(rest).header.topics, p.channelId, p.topics);
        assert ok == Accepted(rest) + [p];
        forall c, t ensures t in Lookup(topics, c) <==> GivesTopic(ok, c, t) {
          GivesTopicSnoc(Accepted(rest), p, c, t);
        }
        forall c | c in topics ensures PushesTo(ok, c) {
          PushesToSnoc(Accepted(rest), p, c);
        }
      }
    }
  }

  /** A printed block is parsed back unchanged or not at all. */
  lemma ParsePrinted(b: Block)
    requires b.header.version == VERSION
    ensures ParseBlock(Print(b)).Ok? <==>
      && AllPayloads(b.transactions) && AllHashes(b.header.channelIds.Keys)
      && PositionsInside(b.header.channelIds, |b.transactions|)
      && AllHashes(b.header.topics.Keys) && TopicsAreHashes(b.header.topics)
    ensures ParseBlock(Print(b)).Ok? ==> ParseBlock(Print(b)).value == b
  {
    assert VERSION != "";
  }

  lemma WellFormedIfParsed(pushes: seq<Pushed>, i: nat)
    requires ParseBlock(Print(Built(pushes))).Ok? && i < |Accepted(pushes)|
    ensures WellFormed(Accepted(pushes)[i])
  {
    hide ParseBlock;
    var b, ok := Built(pushes), Accepted(pushes);
    BuiltBlockIsExact(pushes);
    BuiltTopics(pushes);
    ParsePrinted(b);
    assert HasPayload(b.transactions[i]);
    assert ok[i].channelId in b.header.channelIds.Keys;
    forall k | 0 <= k < |ok[i].topics| ensures IsHash(ok[i].topics[k]) {
      var listed := Lookup(b.header.topics, ok[i].channelId);
      assert GivesTopic(ok, ok[i].channelId, ok[i].topics[k]);
      assert ok[i].topics[k] in listed;
    }
  }

  lemma ParsedIfWellFormed(pushes: seq<Pushed>)
    requires forall i :: 0 <= i < |Accepted(pushes)| ==> WellFormed(Accepted(pushes)[i])
    ensures ParseBlock(Print(Built(pushes))).Ok?
  {
    hide ParseBlock;
    var b, ok := Built(pushes), Accepted(pushes);
    BuiltBlockIsExact(pushes);
    BuiltTopics(pushes);
    PositionsPartitionTheBlock(pushes);
    ParsePrinted(b);
    forall c, i | c in b.header.channelIds && 0 <= i < |b.header.channelIds[c]|
      ensures 0 <= b.header.channelIds[c][i] < |b.transactions|
    {
      assert Owns(b, c, b.header.channelIds[c][i]);
    }
    forall c | c in b.header.topics.Keys ensures IsHash(c) {
      assert PushesTo(ok, c);
    }
    forall c, i | c in b.header.topics && 0 <= i < |b.header.topics[c]| ensures IsHash(b.header.topics[c][i]) {
      assert b.header.topics[c][i] in Lookup(b.header.topics, c);
      assert GivesTopic(ok, c, b.header.topics[c][i]);
    }
  }

  /**
   A block built by pushes and printed is parsed back unchanged iff every accepted
   push was well formed: a push accepts an empty data string and unformatted ids,
   which the parser then rejects.
   */
  lemma ParsePrintedIff(pushes: seq<Pushed>)
    ensures var b, ok := Built(pushes), Accepted(pushes);
      && (ParseBlock(Print(b)).Ok? <==> forall i :: 0 <= i < |ok| ==> WellFormed(ok[i]))
      && (ParseBlock(Print(b)).Ok? ==> ParseBlock(Print(b)).value == b)
  {
    BuiltBlockIsExact(pushes);
    ParsePrinted(Built(pushes));
    if ParseBlock(Print(Built(pushes))).Ok? {
      forall i | 0 <= i < |Accepted(pushes)| ensures WellFormed(Accepted(pushes)[i]) {
        WellFormedIfParsed(pushes, i);
      }
    } else if forall i :: 0 <= i < |Accepted(pushes)| ==> WellFormed(Accepted(pushes)[i]) {
      ParsedIfWellFormed(pushes);
    }
  }

  /** The smallest block that is built and cannot be read: one push of empty data. */
  lemma EmptyDataIsNotParsed(channelId: string, topics: seq<string>)
    ensures var p := Pushed(ClearPersisted(""), channelId, topics);
      Accepted([p]) == [p] && ParseBlock(Print(Built([p]))).Err?
  {
    hide ParseBlock;
    var p := Pushed(ClearPersisted(""), channelId, topics);
    assert [p][..0] == [] && Accepted([p]) == [p];
    ParsePrintedIff([p]);
    assert !WellFormed(Accepted([p])[0]);
  }
}
