/** When a writer reads back what it has just appended, for an arbitrary log, honest or not. */
module AppendLaws {
  import opened Wrappers
  import opened TransactionTypes
  import opened TransactionsParser
  import opened ChannelParser
  import opened ChannelLaws
  import opened ParserLaws
  import opened TransactionManager

  /** Once the channel is known to be clear, or its key is found, more entries change no discovery. */
  lemma DiscoveryStays(w: World, provider: Provider, log: Log, t: Timestamped)
    requires var d := Discover(w, provider, log); d.channelType == CLEAR || d.channelKey.Some?
    ensures Discover(w, provider, log + [t]) == Discover(w, provider, log)
  {
    assert (log + [t])[..|log|] == log;
  }

  /** What an append writes, once the type and the key of the channel are known: the data alone, or sealed with that key under no method. */
  lemma AppendWrites(w: World, provider: Provider, log: Log, data: string, channelId: string, params: seq<Params>,
                     freshKey: string, write: Write)
    requires w.digest(data) != Some(channelId)
    requires Persist(w, provider, log, data, channelId, params, freshKey) == Ok(write)
    ensures var d := Discover(w, provider, log);
      && w.digest(data).Some?
      && ((d.channelType == CLEAR && write.transaction == ClearPersisted(data))
          || (d.channelType == ENCRYPTED && d.channelKey.Some? && d.channelKey.value.algorithm == AES256_GCM
              && write.transaction == Persisted(None, Some(Sealed(AES256_GCM, d.channelKey.value.key, data)), write.transaction.keys, None)))
  {
    hide Discover, KeysOf;
  }

  /** The verdicts on a log stay when an entry is appended after the discovery is settled. */
  lemma VerdictsStay(w: World, provider: Provider, channelId: string, log: Log, t: Timestamped)
    requires var d := Discover(w, provider, log); d.channelType == CLEAR || d.channelKey.Some?
    ensures var before, after := Clean(w, provider, channelId, log).verdicts, Clean(w, provider, channelId, log + [t]).verdicts;
      |before| == |log| && |after| == |log| + 1 && after[..|log|] == before
  {
    hide Discover, CleanWith;
    DiscoveryStays(w, provider, log, t);
    var key := Discover(w, provider, log).channelKey;
    assert (log + [t])[..|log|] == log;
    CleanPrefix(w, provider, channelId, key, log + [t], |log|);
    CleanPrefix(w, provider, channelId, key, log, |log|);
  }

  /** Some entry of the log is accepted, or none is. */
  lemma {:induction false} FirstOrNone(verdicts: seq<Verdict>)
    ensures NoneAccepted(verdicts) || exists k :: FirstAccepted(verdicts, k)
  {
    if verdicts != [] {
      var rest := verdicts[..|verdicts| - 1];
      FirstOrNone(rest);
      if k :| FirstAccepted(rest, k) {
        assert verdicts[..k] == rest[..k];
        assert FirstAccepted(verdicts, k);
      } else if verdicts[|verdicts| - 1].Accepted? {
        assert FirstAccepted(verdicts, |verdicts| - 1);
      }
    }
  }

  /** A transaction in the open seals nothing, and a sealed one has no data in the open. */
  lemma WrittenReadsAs(w: World, provider: Provider, data: string, key: string, keys: Option<Keys>, known: Option<Params>,
                       encryptionMethod: Option<string>)
    requires ValidWorld(w) && w.digest(data).Some?
    ensures OnlyData(ClearPersisted(data), data) && !Seals(w, provider, ClearPersisted(data), known, encryptionMethod, data)
    ensures var sealed := Persisted(None, Some(Sealed(AES256_GCM, key, data)), keys, None);
      && !OnlyData(sealed, data)
      && (known == Some(Params(AES256_GCM, key)) ==> (Seals(w, provider, sealed, known, encryptionMethod, data) <==> Present(encryptionMethod)))
  {
    var sealed := Persisted(None, Some(Sealed(AES256_GCM, key, data)), keys, None);
    if known == Some(Params(AES256_GCM, key)) && Present(encryptionMethod) {
      assert SealsWith(w, provider, sealed, known, encryptionMethod, data, known.value, encryptionMethod.value);
    }
  }

  /** The first accepted entry of an encrypted channel names the method. */
  lemma FirstNamesMethod(w: World, provider: Provider, channelId: string, log: Log, k: nat)
    requires FirstAccepted(Clean(w, provider, channelId, log).verdicts, k) && |Clean(w, provider, channelId, log).verdicts| == |log|
    requires !IsClear(log[k])
    ensures Present(log[k].transaction.encryptionMethod)
  {
    hide Judge, Discover, CleanWith, Seals, OnlyData;
    var key := Discover(w, provider, log).channelKey;
    VerdictsAlign(w, provider, channelId, key, log);
    var data := DataIn(Clean(w, provider, channelId, log).verdicts[k].entry);
    FirstEntryIsAcceptedIff(w, provider, channelId, log, k, data);
    SealsNamesMethod(w, provider, log[k].transaction, key, data);
  }

  lemma SealsNamesMethod(w: World, provider: Provider, tx: Persisted, known: Option<Params>, data: string)
    ensures Seals(w, provider, tx, known, None, data) ==> Present(tx.encryptionMethod)
    ensures OnlyData(tx, data) ==> Present(tx.data)
  {
  }

  /**
   A writer reads back what it has appended iff the first entry it accepts in the channel
   is of the kind of what it wrote. An append looks for the kind of the channel without
   comparing hashes with the channel id, so other entries before the creation can make it
   write in the wrong kind, or into a channel in which nothing is accepted.
   */
  lemma AppendIsReadBackIff(w: World, provider: Provider, log: Log, data: string, channelId: string, params: seq<Params>, freshKey: string,
                            write: Write, now: int)
    requires ValidWorld(w) && w.digest(data) != Some(channelId)
    requires Persist(w, provider, log, data, channelId, params, freshKey) == Ok(write)
    ensures var entry := Timestamped(PENDING, now, write.transaction);
      var before, after := Clean(w, provider, channelId, log).verdicts, Clean(w, provider, channelId, log + [entry]).verdicts;
      && |before| == |log| && |after| == |log| + 1 && after[..|log|] == before
      && (after[|log|] == Accepted(AcceptedEntry(entry, data)) <==>
            exists k :: FirstAccepted(before, k) && IsClear(log[k]) == IsClear(entry))
  {
    hide Clean, Persist, Discover, OnlyData, Seals;
    var entry := Timestamped(PENDING, now, write.transaction);
    var longer, d := log + [entry], Discover(w, provider, log);
    AppendWrites(w, provider, log, data, channelId, params, freshKey, write);
    VerdictsStay(w, provider, channelId, log, entry);
    DiscoveryStays(w, provider, log, entry);
    var before, after := Clean(w, provider, channelId, log).verdicts, Clean(w, provider, channelId, longer).verdicts;
    FirstOrNone(before);
    if k :| FirstAccepted(before, k) {
      assert after[..k] == before[..k] && after[k] == before[k] && FirstAccepted(after, k);
      LaterEntryIsAcceptedIff(w, provider, channelId, longer, k, |log|, data);
      assert longer[k] == log[k] && longer[|log|] == entry;
      if !IsClear(log[k]) {
        FirstNamesMethod(w, provider, channelId, log, k);
      }
      var key := if d.channelKey.Some? then d.channelKey.value.key else "";
      WrittenReadsAs(w, provider, data, key, write.transaction.keys, d.channelKey, log[k].transaction.encryptionMethod);
      assert forall j :: FirstAccepted(before, j) ==> j == k by {
        OneFirst(before, k);
      }
      assert data != "";
    } else {
      FirstEntryIsAcceptedIff(w, provider, channelId, longer, |log|, data);
    }
  }

  lemma NoneBefore(verdicts: seq<Verdict>, k: int)
    requires 0 <= k <= |verdicts| && NoneAccepted(verdicts[..k])
    ensures forall i :: 0 <= i < k ==> verdicts[i].Ignored?
  {
    assert forall i :: 0 <= i < k ==> verdicts[..k][i] == verdicts[i];
  }

  lemma OneFirst(verdicts: seq<Verdict>, k: nat)
    requires FirstAccepted(verdicts, k)
    ensures forall j :: FirstAccepted(verdicts, j) ==> j == k
  {
    NoneBefore(verdicts, k);
    forall j | FirstAccepted(verdicts, j) ensures j == k {
      NoneBefore(verdicts, j);
    }
  }

  /**
   The failing family: a clear entry with JSON data of any hash, before the sealed
   creation. Every append is then written in clear, whoever writes, and a reader who
   accepts the creation ignores it.
   */
  lemma ClearEntryBeforeCreationMisleads(w: World, provider: Provider, first: string, at: int, rest: Log, data: string, channelId: string,
                                         params: seq<Params>, freshKey: string, now: int)
    requires ValidWorld(w) && w.digest(first).Some? && w.digest(data).Some? && w.digest(data) != Some(channelId)
    ensures var log := [Timestamped(PENDING, at, ClearPersisted(first))] + rest;
      var entry := Timestamped(PENDING, now, ClearPersisted(data));
      var before, after := Clean(w, provider, channelId, log).verdicts, Clean(w, provider, channelId, log + [entry]).verdicts;
      && Persist(w, provider, log, data, channelId, params, freshKey) == Ok(Write(ClearPersisted(data), None))
      && |before| == |log| && |after| == |log| + 1
      && forall k :: FirstAccepted(before, k) && !IsClear(log[k]) ==> after[|log|].Ignored?
  {
    hide Clean, CleanWith, Judge;
    var start := Timestamped(PENDING, at, ClearPersisted(first));
    var log, entry := [start] + rest, Timestamped(PENDING, now, ClearPersisted(data));
    assert [start][..0] == [] && first != "";
    DiscoverySettles(w, provider, start, rest);
    AppendIsReadBackIff(w, provider, log, data, channelId, params, freshKey, Write(ClearPersisted(data), None), now);
    var before, after := Clean(w, provider, channelId, log).verdicts, Clean(w, provider, channelId, log + [entry]).verdicts;
    forall k | FirstAccepted(before, k) && !IsClear(log[k]) ensures after[|log|].Ignored? {
      OneFirst(before, k);
      AcceptedIsOwnData(w, provider, channelId, log + [entry], |log|, data);
      assert data != "";
    }
  }

  /** An accepted clear entry is accepted with its own data. */
  lemma AcceptedIsOwnData(w: World, provider: Provider, channelId: string, log: Log, i: nat, data: string)
    requires i < |log| && log[i].transaction == ClearPersisted(data) && data != ""
    ensures var verdicts := Clean(w, provider, channelId, log).verdicts;
      |verdicts| == |log| && (verdicts[i].Accepted? ==> verdicts[i] == Accepted(AcceptedEntry(log[i], data)))
  {
    hide CleanWith, Discover;
    var key := Discover(w, provider, log).channelKey;
    VerdictsAlign(w, provider, channelId, key, log);
    StepAt(w, provider, channelId, key, log, i);
  }
}
