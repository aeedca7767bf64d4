/** Which transactions a reader accepts, in terms of what is persisted. */
module ParserLaws {
  import opened Wrappers
  import opened TransactionTypes
  import opened Transaction
  import opened TransactionsParser
  import opened ChannelParser
  import opened ChannelLaws

  // ---------- the key ----------

  /** The entry gives one of the registered addresses a key. */
  ghost predicate GivesAKey(w: World, registered: set<string>, e: KeyEntry) {
    exists key :: key != "" && SealedForReader(w, registered, e, key)
  }

  /** The key is what the first entry of the dictionary that gives one gives. */
  ghost predicate FirstKey(w: World, registered: set<string>, keys: Keys, key: string) {
    exists i :: FirstKeyAt(w, registered, keys, key, i)
  }

  ghost predicate FirstKeyAt(w: World, registered: set<string>, keys: Keys, key: string, i: int) {
    && 0 <= i < |keys| && key != "" && SealedForReader(w, registered, keys[i], key)
    && forall j :: 0 <= j < i ==> !GivesAKey(w, registered, keys[j])
  }

  lemma OpensIff(w: World, registered: set<string>, e: KeyEntry, key: string)
    ensures SealedForReader(w, registered, e, key) <==>
      e.name.Identity? && e.name.address in registered && OpenForIdentity(w, e.cipher, e.name.address) == Ok(key)
  {
  }

  /** The search finds a key iff some entry gives the reader one, and then it is the first. */
  lemma {:induction false} SearchFindsFirstKey(w: World, registered: set<string>, keys: Keys)
    ensures var found := SearchKeys(w, registered, keys).found;
      && (found == "" <==> forall i :: 0 <= i < |keys| ==> !GivesAKey(w, registered, keys[i]))
      && (forall key :: FirstKey(w, registered, keys, key) <==> key == found != "")
  {
    if keys == [] {
      assert forall key :: !FirstKey(w, registered, keys, key);
    } else {
      hide SealedForReader, OpenForIdentity;
      var rest, last := keys[..|keys| - 1], keys[|keys| - 1];
      SearchFindsFirstKey(w, registered, rest);
      assert forall i :: 0 <= i < |rest| ==> rest[i] == keys[i];
      forall key ensures SealedForReader(w, registered, last, key) <==>
        last.name.Identity? && last.name.address in registered && OpenForIdentity(w, last.cipher, last.name.address) == Ok(key)
      {
        OpensIff(w, registered, last, key);
      }
      forall key ensures FirstKey(w, registered, keys, key) <==>
        || FirstKey(w, registered, rest, key)
        || (SearchKeys(w, registered, rest).found == "" && key != "" && SealedForReader(w, registered, last, key))
      {
        FirstKeySnoc(w, registered, keys, key);
      }
    }
  }

  lemma FirstKeySnoc(w: World, registered: set<string>, keys: Keys, key: string)
    requires keys != []
    ensures var rest, last := keys[..|keys| - 1], keys[|keys| - 1];
      FirstKey(w, registered, keys, key) <==>
        || FirstKey(w, registered, rest, key)
        || ((forall i :: 0 <= i < |rest| ==> !GivesAKey(w, registered, rest[i])) && key != "" && SealedForReader(w, registered, last, key))
  {
    hide SealedForReader, GivesAKey;
    var rest, last := keys[..|keys| - 1], keys[|keys| - 1];
    assert forall i :: 0 <= i < |rest| ==> rest[i] == keys[i];
    if i :| FirstKeyAt(w, registered, keys, key, i) {
      assert i < |rest| ==> FirstKeyAt(w, registered, rest, key, i);
    }
    if i :| FirstKeyAt(w, registered, rest, key, i) {
      assert FirstKeyAt(w, registered, keys, key, i);
    }
    if (forall i :: 0 <= i < |rest| ==> !GivesAKey(w, registered, rest[i])) && key != "" && SealedForReader(w, registered, last, key) {
      assert FirstKeyAt(w, registered, keys, key, |rest|);
    }
  }

  // ---------- one transaction ----------

  predicate IsEmpty(s: Option<string>) {
    s == None || s == Some("")
  }

  /** The transaction carries this data in the open, and nothing else. */
  predicate OnlyData(tx: Persisted, data: string) {
    && tx.data == Some(data) && data != "" && tx.keys == None
    && (tx.encryptedData == None || tx.encryptedData == Some(Noise(""))) && IsEmpty(tx.encryptionMethod)
  }

  /** The key that opens the transaction: the one known for the channel, or else the first that its own dictionary gives the reader. */
  ghost predicate IsItsKey(w: World, provider: Provider, tx: Persisted, known: Option<Params>, methodName: string, p: Params) {
    match known
    case Some(key) => p == key
    case None =>
      && provider.Some? && tx.keys.Some? && FirstKey(w, provider.value, tx.keys.value, p.key)
      && ((methodName == "ecies-aes256-cbc" && p.algorithm == AES256_CBC) || (methodName == "ecies-aes256-gcm" && p.algorithm == AES256_GCM))
  }

  /** The encryption method is named once: by the channel or by the transaction. */
  predicate NamesMethod(tx: Persisted, known: Option<string>, name: string) {
    if known.Some? && known.value != "" then name == known.value && IsEmpty(tx.encryptionMethod)
    else tx.encryptionMethod == Some(name) && name != ""
  }

  /** The transaction carries no data in the open, and this data sealed with its key. */
  ghost predicate Seals(w: World, provider: Provider, tx: Persisted, known: Option<Params>, encryptionMethod: Option<string>, data: string) {
    && IsEmpty(tx.data)
    && exists p, name :: SealsWith(w, provider, tx, known, encryptionMethod, data, p, name)
  }

  ghost predicate SealsWith(w: World, provider: Provider, tx: Persisted, known: Option<Params>, encryptionMethod: Option<string>, data: string,
                            p: Params, name: string) {
    && p.algorithm != ECIES && tx.encryptedData == Some(Sealed(p.algorithm, p.key, data))
    && NamesMethod(tx, encryptionMethod, name) && IsItsKey(w, provider, tx, known, name, p)
  }

  lemma KeyOfDictionaryIff(w: World, provider: Provider, tx: Persisted, name: string, p: Params)
    requires tx.keys.Some?
    ensures IsItsKey(w, provider, tx, None, name, p) <==> DecryptChannelKey(w, provider, tx.keys.value, name) == Ok(p)
  {
    if provider.Some? {
      SearchFindsFirstKey(w, provider.value, tx.keys.value);
      assert FirstKey(w, provider.value, tx.keys.value, p.key) <==> p.key == SearchKeys(w, provider.value, tx.keys.value).found != "";
    }
  }

  /** For given texts of the method, one key can be the one that opens the transaction. */
  lemma ItsKeyIff(w: World, provider: Provider, tx: Persisted, known: Option<Params>, name: string, p: Params)
    ensures IsItsKey(w, provider, tx, known, name, p) <==>
      if known.Some? then p == known.value else tx.keys.Some? && DecryptChannelKey(w, provider, tx.keys.value, name) == Ok(p)
  {
    hide DecryptChannelKey;
    if known == None && tx.keys.Some? {
      KeyOfDictionaryIff(w, provider, tx, name, p);
    }
  }

  /** The text that the method of the transaction has if it has one. */
  function MethodName(tx: Persisted, known: Option<string>): string {
    if Present(known) then known.value else if tx.encryptionMethod.Some? then tx.encryptionMethod.value else ""
  }

  lemma SealedParses(w: World, provider: Provider, tx: Persisted, channelType: ChannelType, known: Option<Params>,
                     encryptionMethod: Option<string>, data: string)
    requires !Present(tx.data)
    requires ParsePersisted(w, provider, tx, channelType, known, encryptionMethod).Ok?
    requires DataOf(ParsePersisted(w, provider, tx, channelType, known, encryptionMethod).value.content) == Ok(data)
    ensures channelType != CLEAR && Seals(w, provider, tx, known, encryptionMethod, data)
  {
    hide IsItsKey, DecryptChannelKey;
    var p, name := ParsePersisted(w, provider, tx, channelType, known, encryptionMethod).value.channelKey.value, MethodName(tx, encryptionMethod);
    ItsKeyIff(w, provider, tx, known, name, p);
    assert NamesMethod(tx, encryptionMethod, name);
    assert IsItsKey(w, provider, tx, known, name, p);
    assert SealsWith(w, provider, tx, known, encryptionMethod, data, p, name);
  }

  lemma SealedIsParsed(w: World, provider: Provider, tx: Persisted, channelType: ChannelType, known: Option<Params>,
                       encryptionMethod: Option<string>, data: string)
    requires channelType != CLEAR && Seals(w, provider, tx, known, encryptionMethod, data)
    ensures ParsePersisted(w, provider, tx, channelType, known, encryptionMethod).Ok?
    ensures DataOf(ParsePersisted(w, provider, tx, channelType, known, encryptionMethod).value.content) == Ok(data)
  {
    hide IsItsKey, DecryptChannelKey;
    var p, name :| SealsWith(w, provider, tx, known, encryptionMethod, data, p, name);
    assert name == MethodName(tx, encryptionMethod);
    ItsKeyIff(w, provider, tx, known, name, p);
    assert !Present(tx.data) && HasCipher(tx.encryptedData);
    if Present(encryptionMethod) {
      assert !Present(tx.encryptionMethod);
    } else {
      assert Present(tx.encryptionMethod);
    }
  }

  /** A transaction parses to this data iff it carries it in the open where that is allowed, or sealed with its key where that is. */
  lemma ParsesIff(w: World, provider: Provider, tx: Persisted, channelType: ChannelType, known: Option<Params>,
                  encryptionMethod: Option<string>, data: string)
    ensures var parsed := ParsePersisted(w, provider, tx, channelType, known, encryptionMethod);
      (parsed.Ok? && DataOf(parsed.value.content) == Ok(data)) <==>
        || (channelType != ENCRYPTED && OnlyData(tx, data))
        || (channelType != CLEAR && Seals(w, provider, tx, known, encryptionMethod, data))
  {
    if !Present(tx.data) {
      hide SealsWith, ParsePersisted;
      var parsed := ParsePersisted(w, provider, tx, channelType, known, encryptionMethod);
      if parsed.Ok? && DataOf(parsed.value.content) == Ok(data) {
        SealedParses(w, provider, tx, channelType, known, encryptionMethod, data);
      }
      if channelType != CLEAR && Seals(w, provider, tx, known, encryptionMethod, data) {
        SealedIsParsed(w, provider, tx, channelType, known, encryptionMethod, data);
      }
    }
  }

  // ---------- one entry of a log ----------

  /** What a reader must find in an entry to accept it, given what is known of the channel. */
  ghost predicate Acceptable(w: World, provider: Provider, channelId: string, tx: Persisted, channelType: ChannelType, known: Option<Params>,
                             encryptionMethod: Option<string>, data: string) {
    && ((channelType != ENCRYPTED && OnlyData(tx, data)) || (channelType != CLEAR && Seals(w, provider, tx, known, encryptionMethod, data)))
    && w.digest(data).Some? && (channelType == UNKNOWN ==> w.digest(data) == Some(channelId))
  }

  lemma JudgeAcceptsIff(w: World, provider: Provider, channelId: string, known: Option<Params>, channelType: ChannelType,
                        encryptionMethod: Option<string>, t: Timestamped, data: string)
    ensures Judge(w, provider, channelId, known, channelType, encryptionMethod, t).0 == Accepted(AcceptedEntry(t, data)) <==>
      Acceptable(w, provider, channelId, t.transaction, channelType, known, encryptionMethod, data)
  {
    hide Seals, OnlyData, ParsePersisted;
    ParsesIff(w, provider, t.transaction, channelType, known, encryptionMethod, data);
  }

  /**
   The first entry that a reader accepts: of those before which nothing is accepted, one
   that carries data with the hash of the channel, in the open and alone, or sealed with
   the key of the channel, or of its own dictionary, under a method that it names.
   */
  lemma FirstEntryIsAcceptedIff(w: World, provider: Provider, channelId: string, log: Log, i: nat, data: string)
    requires i < |log| == |Clean(w, provider, channelId, log).verdicts|
    requires NoneAccepted(Clean(w, provider, channelId, log).verdicts[..i])
    ensures Clean(w, provider, channelId, log).verdicts[i] == Accepted(AcceptedEntry(log[i], data)) <==>
      && (OnlyData(log[i].transaction, data) || Seals(w, provider, log[i].transaction, Discover(w, provider, log).channelKey, None, data))
      && w.digest(data) == Some(channelId)
  {
    hide Judge, Seals, OnlyData, Discover, CleanWith;
    VerdictBeforeFirst(w, provider, channelId, Discover(w, provider, log).channelKey, log, i);
    JudgeAcceptsIff(w, provider, channelId, Discover(w, provider, log).channelKey, UNKNOWN, None, log[i], data);
  }

  /**
   Every entry after the first accepted one: in a clear channel it is accepted iff it
   carries JSON data in the open and alone; in an encrypted one iff it carries JSON data
   sealed with the key of the channel, or else of its own dictionary, and names no
   method, the first accepted one having named it.
   */
  lemma LaterEntryIsAcceptedIff(w: World, provider: Provider, channelId: string, log: Log, k: nat, i: nat, data: string)
    requires k < i < |log| == |Clean(w, provider, channelId, log).verdicts|
    requires FirstAccepted(Clean(w, provider, channelId, log).verdicts, k)
    ensures Clean(w, provider, channelId, log).verdicts[i] == Accepted(AcceptedEntry(log[i], data)) <==>
      && w.digest(data).Some?
      && if IsClear(log[k]) then OnlyData(log[i].transaction, data)
         else Seals(w, provider, log[i].transaction, Discover(w, provider, log).channelKey, log[k].transaction.encryptionMethod, data)
  {
    hide Seals, OnlyData, Discover, CleanWith, ParsePersisted, NoneAccepted;
    var key := Discover(w, provider, log).channelKey;
    VerdictAfterFirst(w, provider, channelId, key, log, k, i);
    VerdictBeforeFirst(w, provider, channelId, key, log, k);
    var (channelType, encryptionMethod) := FixedBy(w, provider, channelId, key, log[k]);
    FixedByFirst(w, provider, channelId, key, log[k]);
    JudgeAcceptsIff(w, provider, channelId, key, channelType, encryptionMethod, log[i], data);
  }

  lemma FixedByFirst(w: World, provider: Provider, channelId: string, known: Option<Params>, t: Timestamped)
    requires Judge(w, provider, channelId, known, UNKNOWN, None, t).0.Accepted?
    ensures FixedBy(w, provider, channelId, known, t) == (if IsClear(t) then (CLEAR, None) else (ENCRYPTED, t.transaction.encryptionMethod))
  {
  }
}
