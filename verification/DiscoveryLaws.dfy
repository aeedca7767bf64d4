/** What a reader learns of the type and the key of a channel from one more entry, for an arbitrary log. */
module DiscoveryLaws {
  import opened Wrappers
  import opened TransactionTypes
  import opened Transaction
  import opened TransactionsParser
  import opened ChannelParser
  import opened ParserLaws
  import opened IgnoredReasons

  /** The entry shows a clear channel: JSON data in the open and alone. */
  ghost predicate ShowsClear(w: World, tx: Persisted) {
    exists data :: OnlyData(tx, data) && w.digest(data).Some?
  }

  /** The entry gives the reader its key: it seals JSON data, with this key under this method. */
  ghost predicate GivesKey(w: World, provider: Provider, tx: Persisted, encryptionMethod: Option<string>, p: Params, name: string) {
    IsEmpty(tx.data) && exists data :: SealsWith(w, provider, tx, None, encryptionMethod, data, p, name) && w.digest(data).Some?
  }

  /** The entry has a dictionary that gives the reader no key. */
  ghost predicate IsLocked(w: World, provider: Provider, tx: Persisted) {
    exists message :: IgnoredFor(w, provider, "", tx, UNKNOWN, None, None, ImpossibleToDecryptKey(message))
  }

  lemma StepByData(w: World, provider: Provider, d: Discovery, tx: Persisted)
    requires d.channelType != CLEAR && d.channelKey == None
    ensures var parsed, after := ParsePersisted(w, provider, tx, d.channelType, None, d.encryptionMethod), DiscoverStep(w, provider, d, tx);
      if parsed.Err? then
        after == if parsed.error.ImpossibleToDecryptKey? && d.channelType == UNKNOWN then Discovery(ENCRYPTED, None, tx.encryptionMethod) else d
      else if DataOf(parsed.value.content).Ok? && w.digest(DataOf(parsed.value.content).value).Some? then
        after == Discovery(if parsed.value.channelKey.Some? then ENCRYPTED else CLEAR, parsed.value.channelKey, parsed.value.encryptionMethod)
      else after == d
  {
  }

  lemma ParsedInTheOpen(w: World, provider: Provider, tx: Persisted, channelType: ChannelType, known: Option<Params>,
                        encryptionMethod: Option<string>, data: string)
    requires channelType != ENCRYPTED && OnlyData(tx, data)
    ensures ParsePersisted(w, provider, tx, channelType, known, encryptionMethod) == Ok(Parsed(ClearContent(data), None, None))
  {
  }

  lemma ParsedWithKey(w: World, provider: Provider, tx: Persisted, channelType: ChannelType, known: Option<Params>,
                      encryptionMethod: Option<string>, data: string, p: Params, name: string)
    requires channelType != CLEAR && IsEmpty(tx.data) && SealsWith(w, provider, tx, known, encryptionMethod, data, p, name)
    ensures ParsePersisted(w, provider, tx, channelType, known, encryptionMethod)
         == Ok(Parsed(EncryptedContent(tx.encryptedData.value, p), Some(p), Some(name)))
  {
    hide IsItsKey, DecryptChannelKey;
    assert name == MethodName(tx, encryptionMethod);
    ItsKeyIff(w, provider, tx, known, name, p);
    assert Present(encryptionMethod) ==> encryptionMethod == Some(name) && !Present(tx.encryptionMethod);
    assert !Present(encryptionMethod) ==> tx.encryptionMethod == Some(name) && Present(tx.encryptionMethod);
  }

  /** One step, on what the entry holds. */
  lemma StepByContent(w: World, provider: Provider, d: Discovery, tx: Persisted)
    requires d.channelType != CLEAR && d.channelKey == None
    ensures var after := DiscoverStep(w, provider, d, tx);
      && (d.channelType == UNKNOWN && ShowsClear(w, tx) ==> after == Discovery(CLEAR, None, None))
      && (forall p, name :: GivesKey(w, provider, tx, d.encryptionMethod, p, name) ==> after == Discovery(ENCRYPTED, Some(p), Some(name)))
      && (after == d
          || (d.channelType == UNKNOWN && ShowsClear(w, tx))
          || (after.channelKey.Some? && after.encryptionMethod.Some?
              && GivesKey(w, provider, tx, d.encryptionMethod, after.channelKey.value, after.encryptionMethod.value))
          || ParsePersisted(w, provider, tx, d.channelType, None, d.encryptionMethod).Err?)
  {
    hide DiscoverStep, ParsePersisted, SealsWith, OnlyData;
    var parsed, after := ParsePersisted(w, provider, tx, d.channelType, None, d.encryptionMethod), DiscoverStep(w, provider, d, tx);
    StepByData(w, provider, d, tx);
    if data :| OnlyData(tx, data) && w.digest(data).Some? && d.channelType == UNKNOWN {
      ParsedInTheOpen(w, provider, tx, d.channelType, None, d.encryptionMethod, data);
    }
    forall p, name | GivesKey(w, provider, tx, d.encryptionMethod, p, name) ensures after == Discovery(ENCRYPTED, Some(p), Some(name)) {
      var data :| SealsWith(w, provider, tx, None, d.encryptionMethod, data, p, name) && w.digest(data).Some?;
      ParsedWithKey(w, provider, tx, d.channelType, None, d.encryptionMethod, data, p, name);
      SealsItsData(w, provider, tx, d.encryptionMethod, data, p, name);
    }
    if parsed.Ok? && DataOf(parsed.value.content).Ok? && w.digest(DataOf(parsed.value.content).value).Some? {
      var data := DataOf(parsed.value.content).value;
      ParsesIff(w, provider, tx, d.channelType, None, d.encryptionMethod, data);
      if Seals(w, provider, tx, None, d.encryptionMethod, data) {
        var p, name :| SealsWith(w, provider, tx, None, d.encryptionMethod, data, p, name);
        assert GivesKey(w, provider, tx, d.encryptionMethod, p, name);
      }
    }
  }

  lemma SealsItsData(w: World, provider: Provider, tx: Persisted, encryptionMethod: Option<string>, data: string, p: Params, name: string)
    requires SealsWith(w, provider, tx, None, encryptionMethod, data, p, name)
    ensures tx.encryptedData.Some? && DataOf(EncryptedContent(tx.encryptedData.value, p)) == Ok(data)
  {
  }

  /**
   What one more entry tells a reader. Nothing, once the channel is known to be clear or
   its key is found. Otherwise JSON data in the open shows a clear channel, unless an
   encrypted one was seen; an entry that gives the reader its key settles the key and
   the method; a dictionary that gives it no key shows an encrypted channel and its
   method; and any other entry tells nothing.
   */
  lemma OneMoreEntryTells(w: World, provider: Provider, log: Log, t: Timestamped)
    ensures var before, after := Discover(w, provider, log), Discover(w, provider, log + [t]);
      if before.channelType == CLEAR || before.channelKey.Some? then after == before
      else if before.channelType == UNKNOWN && ShowsClear(w, t.transaction) then after == Discovery(CLEAR, None, None)
      else if exists p, name :: GivesKey(w, provider, t.transaction, before.encryptionMethod, p, name) then
        forall p, name :: GivesKey(w, provider, t.transaction, before.encryptionMethod, p, name) ==>
          after == Discovery(ENCRYPTED, Some(p), Some(name))
      else if before.channelType == UNKNOWN && IsLocked(w, provider, t.transaction) then
        after == Discovery(ENCRYPTED, None, t.transaction.encryptionMethod)
      else after == before
  {
    hide DiscoverStep, ParsePersisted, ShowsClear, GivesKey;
    var before := Discover(w, provider, log);
    UnknownHasNoMethod(w, provider, log);
    assert (log + [t])[..|log|] == log;
    if before.channelType == CLEAR || before.channelKey.Some? {
      SettledStep(w, provider, before, t.transaction);
    } else {
      StepByContent(w, provider, before, t.transaction);
      FailedStep(w, provider, before, t.transaction);
    }
  }

  lemma SettledStep(w: World, provider: Provider, d: Discovery, tx: Persisted)
    requires d.channelType == CLEAR || d.channelKey.Some?
    ensures DiscoverStep(w, provider, d, tx) == d
  {
  }

  /** While the type is unknown nothing else is known. */
  lemma {:induction false} UnknownHasNoMethod(w: World, provider: Provider, log: Log)
    ensures Discover(w, provider, log).channelType == UNKNOWN ==> Discover(w, provider, log) == UNDISCOVERED
  {
    if log != [] {
      hide ParsePersisted;
      UnknownHasNoMethod(w, provider, log[..|log| - 1]);
    }
  }

  /** An entry that does not parse shows an encrypted channel iff its dictionary gives the reader no key. */
  lemma FailedStep(w: World, provider: Provider, d: Discovery, tx: Persisted)
    requires d.channelType != CLEAR && d.channelKey == None && (d.channelType == UNKNOWN ==> d == UNDISCOVERED)
    ensures var parsed, after := ParsePersisted(w, provider, tx, d.channelType, None, d.encryptionMethod), DiscoverStep(w, provider, d, tx);
      && (parsed.Err? ==>
            after == if d.channelType == UNKNOWN && IsLocked(w, provider, tx) then Discovery(ENCRYPTED, None, tx.encryptionMethod) else d)
      && (d.channelType == UNKNOWN && IsLocked(w, provider, tx) ==> parsed.Err?)
  {
    hide DiscoverStep, ParsePersisted, IgnoredFor;
    StepByData(w, provider, d, tx);
    var parsed := ParsePersisted(w, provider, tx, d.channelType, None, d.encryptionMethod);
    if d.channelType == UNKNOWN {
      forall message ensures parsed == Err(ImpossibleToDecryptKey(message)) <==>
        IgnoredFor(w, provider, "", tx, UNKNOWN, None, None, ImpossibleToDecryptKey(message))
      {
        ParseFailsIff(w, provider, "", tx, UNKNOWN, None, None, ImpossibleToDecryptKey(message));
      }
    }
  }
}
