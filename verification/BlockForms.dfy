/** What blocks look like: the documents that are read as a block, and the topics that a built block lists. */
module BlockForms {
  import opened Wrappers
  import opened Block
  import TransactionTypes
  import MultiFormat

  // ---------- documents ----------

  /** The text is a serialized hash: its prefix, then 64 characters. */
  predicate LooksLikeHash(s: string) {
    |s| == 66 && s[0] == '0' && s[1] == '1'
  }

  /** What a block must be to be read back. */
  ghost predicate IsReadable(b: Block) {
    && b.header.version == "0.1.0"
    && (forall i :: 0 <= i < |b.transactions| ==>
          var tx := b.transactions[i];
          !((tx.data == None || tx.data == Some("")) && (tx.encryptedData == None || tx.encryptedData == Some(TransactionTypes.Noise("")))))
    && (forall c :: c in b.header.channelIds ==> LooksLikeHash(c))
    && (forall c, i :: c in b.header.channelIds && 0 <= i < |b.header.channelIds[c]| ==> 0 <= b.header.channelIds[c][i] < |b.transactions|)
    && (forall c :: c in b.header.topics ==> LooksLikeHash(c))
    && (forall c, i :: c in b.header.topics && 0 <= i < |b.header.topics[c]| ==> LooksLikeHash(b.header.topics[c][i]))
  }

  lemma IsHashIff(s: string)
    ensures IsHash(s) <==> LooksLikeHash(s)
  {
    assert MultiFormat.KECCAK256.prefix == "01" && MultiFormat.KECCAK256.length == Some(66);
    assert MultiFormat.FindForString([], s) == None && MultiFormat.HASH_FORMAT[1..] == [];
    if |s| == 66 {
      assert MultiFormat.Head(s) == "01" <==> s[0] == '0' && s[1] == '1' by {
        assert s[..2] == [s[0], s[1]];
      }
    }
  }

  /** A document is read as a block iff it is the text of that block, and the block is readable. */
  lemma ReadsIff(d: Document, b: Block)
    ensures ParseBlock(d) == Ok(b) <==> d == Print(b) && IsReadable(b)
  {
    hide IsHash, LooksLikeHash, ParseBlock;
    forall s ensures IsHash(s) <==> LooksLikeHash(s) {
      IsHashIff(s);
    }
    if b.header.version == VERSION {
      ParsePrinted(b);
    }
    ParsedIsPrinted(d);
  }

  lemma ParsedIsPrinted(d: Document)
    ensures ParseBlock(d).Ok? ==> d == Print(ParseBlock(d).value) && ParseBlock(d).value.header.version == VERSION
  {
  }

  // ---------- documents that are not read ----------

  predicate Payload(tx: TransactionTypes.Persisted) {
    (tx.data != None && tx.data != Some("")) || (tx.encryptedData != None && tx.encryptedData != Some(TransactionTypes.Noise("")))
  }

  /** The document has every part of a block. */
  predicate IsWhole(d: Document) {
    && d.Document? && d.header.Some? && d.transactions.Some?
    && d.header.value.channelIds.Some? && d.header.value.topics.Some?
    && d.header.value.version.Some? && d.header.value.version.value != ""
  }

  /** The parts of a whole document that are as they should be, up to the n-th check. */
  ghost predicate Passes(d: Document, n: nat)
    requires IsWhole(d)
  {
    var h, txs := d.header.value, d.transactions.value;
    && (n >= 1 ==> h.version == Some("0.1.0"))
    && (n >= 2 ==> forall i :: 0 <= i < |txs| ==> Payload(txs[i]))
    && (n >= 3 ==> forall c :: c in h.channelIds.value ==> LooksLikeHash(c))
    && (n >= 4 ==> forall c, i :: c in h.channelIds.value && 0 <= i < |h.channelIds.value[c]| ==> 0 <= h.channelIds.value[c][i] < |txs|)
    && (n >= 5 ==> forall c :: c in h.topics.value ==> LooksLikeHash(c))
    && (n >= 6 ==> forall c, i :: c in h.topics.value && 0 <= i < |h.topics.value[c]| ==> LooksLikeHash(h.topics.value[c][i]))
  }

  /** The first check of a whole document that fails is the n-th. */
  ghost predicate FailsAt(d: Document, n: nat) {
    IsWhole(d) && n >= 1 && Passes(d, n - 1) && !Passes(d, n)
  }

  /** What makes a document be rejected with each error. */
  ghost predicate RejectedFor(d: Document, e: Error) {
    match e
    case ImpossibleToParse => d.NotJson?
    case NotABlock => d.Document? && (d.header == None || d.transactions == None)
    case NotAHeader => d.Document? && d.header.Some? && d.transactions.Some? && !IsWhole(d)
    case VersionNotSupported => FailsAt(d, 1)
    case BadTransactions => FailsAt(d, 2)
    case BadChannelIds => FailsAt(d, 3)
    case BadPositions => FailsAt(d, 4)
    case BadTopicChannels => FailsAt(d, 5)
    case BadTopics => FailsAt(d, 6)
    case MissingPayload => false
  }

  /** The error of a document that is not read is that of the first thing that is wrong with it. */
  lemma RejectedForIff(d: Document, e: Error)
    ensures ParseBlock(d) == Err(e) <==> RejectedFor(d, e)
  {
    hide IsHash, LooksLikeHash;
    forall s ensures IsHash(s) <==> LooksLikeHash(s) {
      IsHashIff(s);
    }
  }

  // ---------- topics ----------

  /** The topics of the pushes to a channel, in order. */
  function TopicsOf(pushes: seq<Pushed>, c: string): seq<string> {
    if pushes == [] then []
    else
      var rest, last := TopicsOf(pushes[..|pushes| - 1], c), pushes[|pushes| - 1];
      if last.channelId == c then rest + last.topics else rest
  }

  lemma TopicsOfSnoc(pushes: seq<Pushed>, p: Pushed, c: string)
    ensures TopicsOf(pushes + [p], c) == TopicsOf(pushes, c) + (if p.channelId == c then p.topics else [])
  {
    assert (pushes + [p])[..|pushes|] == pushes;
  }

  lemma AddTopicsExact(topics: map<string, seq<string>>, channelId: string, added: seq<string>, c: string)
    ensures var after := AddTopics(topics, channelId, added);
      && Lookup(after, c) == Lookup(topics, c) + (if c == channelId then added else [])
      && (c in after <==> c in topics || (c == channelId && added != []))
  {
    assert Lookup(topics, c) + [] == Lookup(topics, c);
  }

  /** A built block lists for each channel the topics of its accepted pushes, in order, and no channel without a topic. */
  lemma {:induction false} BuiltTopicsAreExact(pushes: seq<Pushed>, c: string)
    ensures var topics, ok := Built(pushes).header.topics, Accepted(pushes);
      Lookup(topics, c) == TopicsOf(ok, c) && (c in topics <==> TopicsOf(ok, c) != [])
  {
    if pushes != [] {
      var rest, p := pushes[..|pushes| - 1], pushes[|pushes| - 1];
      BuiltTopicsAreExact(rest, c);
      if Accepted(pushes) != Accepted(rest) {
        hide Push, TopicsOf, AddTopics, Lookup;
        PushFacts(Built(rest), p);
        AddTopicsExact(Built(rest).header.topics, p.channelId, p.topics, c);
        assert Accepted(pushes) == Accepted(rest) + [p];
        TopicsOfSnoc(Accepted(rest), p, c);
      }
    }
  }
}
