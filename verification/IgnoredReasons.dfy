/** Why a reader ignores an entry: one condition on what is persisted for each reason. */
module IgnoredReasons {
  import opened Wrappers
  import opened TransactionTypes
  import opened Transaction
  import opened TransactionsParser
  import opened ChannelParser
  import opened ParserLaws

  // ---------- the search for a key ----------

  /** Opening the entry fails for one of the registered addresses, with this message. */
  predicate FailsFor(w: World, registered: set<string>, e: KeyEntry, message: string) {
    e.name.Identity? && e.name.address in registered && OpenForIdentity(w, e.cipher, e.name.address) == Err(message)
  }

  predicate LastFailureAt(w: World, registered: set<string>, keys: Keys, message: string, i: int) {
    && 0 <= i < |keys| && FailsFor(w, registered, keys[i], message)
    && forall j :: i < j < |keys| ==> NeverFails(w, registered, keys[j])
  }

  predicate NeverFails(w: World, registered: set<string>, e: KeyEntry) {
    e.name.Identity? && e.name.address in registered ==> OpenForIdentity(w, e.cipher, e.name.address).Ok?
  }

  /** The message of the last entry for the reader that does not open; empty when all open. */
  ghost predicate LastFailure(w: World, registered: set<string>, keys: Keys, message: string) {
    || (exists i :: LastFailureAt(w, registered, keys, message, i))
    || (message == "" && forall i :: 0 <= i < |keys| ==> NeverFails(w, registered, keys[i]))
  }

  lemma LastFailureSnoc(w: World, registered: set<string>, keys: Keys, message: string)
    requires keys != []
    ensures var rest, last := keys[..|keys| - 1], keys[|keys| - 1];
      LastFailure(w, registered, keys, message) <==>
        FailsFor(w, registered, last, message) || (NeverFails(w, registered, last) && LastFailure(w, registered, rest, message))
  {
    hide OpenForIdentity;
    var n := |keys| - 1;
    var rest := keys[..n];
    assert forall i :: 0 <= i < n ==> rest[i] == keys[i];
    if i :| LastFailureAt(w, registered, keys, message, i) {
      assert i < n ==> LastFailureAt(w, registered, rest, message, i);
    }
    if NeverFails(w, registered, keys[n]) {
      if i :| LastFailureAt(w, registered, rest, message, i) {
        assert LastFailureAt(w, registered, keys, message, i);
      }
    }
    if FailsFor(w, registered, keys[n], message) {
      assert LastFailureAt(w, registered, keys, message, n);
    }
  }

  /** A search that finds no key gives the message of the last failure. */
  lemma {:induction false} ReasonIsTheLastFailure(w: World, registered: set<string>, keys: Keys, message: string)
    requires SearchKeys(w, registered, keys).found == ""
    ensures LastFailure(w, registered, keys, message) <==> SearchKeys(w, registered, keys).reason == message
  {
    if keys != [] {
      hide OpenForIdentity, LastFailure;
      ReasonIsTheLastFailure(w, registered, keys[..|keys| - 1], message);
      LastFailureSnoc(w, registered, keys, message);
    }
  }

  // ---------- one entry ----------

  /** The transaction is taken for an encrypted one. */
  predicate TakenAsSealed(tx: Persisted, channelType: ChannelType) {
    IsEmpty(tx.data) && tx.encryptedData != None && tx.encryptedData != Some(Noise("")) && channelType != CLEAR
  }

  /** Its key is looked for in its own dictionary. */
  predicate LooksForKey(tx: Persisted, channelType: ChannelType, known: Option<Params>, encryptionMethod: Option<string>) {
    && TakenAsSealed(tx, channelType) && known == None && tx.keys.Some?
    && IsEmpty(encryptionMethod) != IsEmpty(tx.encryptionMethod)
  }

  /** The key of the transaction does not open it. */
  ghost predicate DoesNotOpen(w: World, provider: Provider, tx: Persisted, channelType: ChannelType, known: Option<Params>,
                              encryptionMethod: Option<string>) {
    && TakenAsSealed(tx, channelType)
    && exists p, name ::
         && NamesMethod(tx, encryptionMethod, name) && IsItsKey(w, provider, tx, known, name, p)
         && (tx.encryptedData.value.Noise? || p.algorithm == ECIES
             || tx.encryptedData.value.algorithm != p.algorithm || tx.encryptedData.value.key != p.key)
  }

  /** What makes an entry be ignored for each reason. */
  ghost predicate IgnoredFor(w: World, provider: Provider, channelId: string, tx: Persisted, channelType: ChannelType, known: Option<Params>,
                             encryptionMethod: Option<string>, reason: Error) {
    match reason
    case ClearNotAllowed => !IsEmpty(tx.data) && channelType == ENCRYPTED
    case OnlyDataAllowed => !IsEmpty(tx.data) && channelType != ENCRYPTED && !OnlyData(tx, tx.data.value)
    case NotJson => channelType != ENCRYPTED && exists data :: OnlyData(tx, data) && w.digest(data) == None
    case NoPayload => IsEmpty(tx.data) && (tx.encryptedData == None || tx.encryptedData == Some(Noise("")))
    case EncryptedNotAllowed => TakenAsSealed(tx, UNKNOWN) && channelType == CLEAR
    case MethodAlreadyGiven => TakenAsSealed(tx, channelType) && !IsEmpty(encryptionMethod) && !IsEmpty(tx.encryptionMethod)
    case MethodNeeded => TakenAsSealed(tx, channelType) && known.Some? && IsEmpty(encryptionMethod) && IsEmpty(tx.encryptionMethod)
    case MethodAndKeysNeeded =>
      TakenAsSealed(tx, channelType) && known == None && IsEmpty(encryptionMethod) && (IsEmpty(tx.encryptionMethod) || tx.keys == None)
    case KeysNeeded =>
      TakenAsSealed(tx, channelType) && known == None && !IsEmpty(encryptionMethod) && IsEmpty(tx.encryptionMethod) && tx.keys == None
    case NoProvider => LooksForKey(tx, channelType, known, encryptionMethod) && provider == None
    case MethodNotSupported(name) =>
      && LooksForKey(tx, channelType, known, encryptionMethod) && provider.Some? && NamesMethod(tx, encryptionMethod, name)
      && name != "ecies-aes256-cbc" && name != "ecies-aes256-gcm"
    case ImpossibleToDecryptKey(message) =>
      && LooksForKey(tx, channelType, known, encryptionMethod) && provider.Some?
      && (NamesMethod(tx, encryptionMethod, "ecies-aes256-cbc") || NamesMethod(tx, encryptionMethod, "ecies-aes256-gcm"))
      && (forall i :: 0 <= i < |tx.keys.value| ==> !GivesAKey(w, provider.value, tx.keys.value[i]))
      && LastFailure(w, provider.value, tx.keys.value, message)
    case ImpossibleToDecryptTransaction => DoesNotOpen(w, provider, tx, channelType, known, encryptionMethod)
    case DecryptedNotJson => channelType != CLEAR && exists data :: Seals(w, provider, tx, known, encryptionMethod, data) && w.digest(data) == None
    case WrongChannelHash =>
      && channelType == UNKNOWN
      && exists data :: Reads(w, provider, tx, known, encryptionMethod, data) && w.digest(data).Some? && w.digest(data) != Some(channelId)
    case _ => false
  }

  /** The data of the transaction, in the open or sealed. */
  ghost predicate Reads(w: World, provider: Provider, tx: Persisted, known: Option<Params>, encryptionMethod: Option<string>, data: string) {
    OnlyData(tx, data) || Seals(w, provider, tx, known, encryptionMethod, data)
  }

  // ---------- the reasons are exact ----------

  lemma KeyNotFoundIff(w: World, provider: Provider, keys: Keys, name: string, reason: Error)
    ensures DecryptChannelKey(w, provider, keys, name) == Err(reason) <==>
      if provider == None then reason == NoProvider
      else if name != "ecies-aes256-cbc" && name != "ecies-aes256-gcm" then reason == MethodNotSupported(name)
      else
        && reason.ImpossibleToDecryptKey?
        && (forall i :: 0 <= i < |keys| ==> !GivesAKey(w, provider.value, keys[i]))
        && LastFailure(w, provider.value, keys, reason.reason)
  {
    hide SearchKeys, GivesAKey, LastFailure;
    if provider.Some? {
      SearchFindsFirstKey(w, provider.value, keys);
      if SearchKeys(w, provider.value, keys).found == "" && reason.ImpossibleToDecryptKey? {
        ReasonIsTheLastFailure(w, provider.value, keys, reason.reason);
      }
    }
  }

  /** The reasons given while a transaction is parsed. */
  predicate IsParseError(reason: Error) {
    !reason.NotJson? && !reason.ImpossibleToDecryptTransaction? && !reason.DecryptedNotJson? && !reason.WrongChannelHash?
  }

  lemma ParseFailsIff(w: World, provider: Provider, channelId: string, tx: Persisted, channelType: ChannelType, known: Option<Params>,
                      encryptionMethod: Option<string>, reason: Error)
    requires IsParseError(reason)
    ensures ParsePersisted(w, provider, tx, channelType, known, encryptionMethod) == Err(reason) <==>
      IgnoredFor(w, provider, channelId, tx, channelType, known, encryptionMethod, reason)
  {
    hide DecryptChannelKey, GivesAKey, LastFailure;
    var name := MethodName(tx, encryptionMethod);
    if LooksForKey(tx, channelType, known, encryptionMethod) {
      assert NamesMethod(tx, encryptionMethod, name);
      KeyNotFoundIff(w, provider, tx.keys.value, name, reason);
    }
  }

  lemma UnopenedIff(w: World, provider: Provider, tx: Persisted, channelType: ChannelType, known: Option<Params>, encryptionMethod: Option<string>)
    ensures var parsed := ParsePersisted(w, provider, tx, channelType, known, encryptionMethod);
      (parsed.Ok? && DataOf(parsed.value.content).Err?) <==> DoesNotOpen(w, provider, tx, channelType, known, encryptionMethod)
  {
    hide DecryptChannelKey, IsItsKey;
    var parsed := ParsePersisted(w, provider, tx, channelType, known, encryptionMethod);
    var name := MethodName(tx, encryptionMethod);
    if parsed.Ok? && DataOf(parsed.value.content).Err? {
      ItsKeyIff(w, provider, tx, known, name, parsed.value.channelKey.value);
      assert NamesMethod(tx, encryptionMethod, name) && IsItsKey(w, provider, tx, known, name, parsed.value.channelKey.value);
    }
    if DoesNotOpen(w, provider, tx, channelType, known, encryptionMethod) {
      var p, n :|
        && NamesMethod(tx, encryptionMethod, n) && IsItsKey(w, provider, tx, known, n, p)
        && (tx.encryptedData.value.Noise? || p.algorithm == ECIES
            || tx.encryptedData.value.algorithm != p.algorithm || tx.encryptedData.value.key != p.key);
      assert n == name;
      ItsKeyIff(w, provider, tx, known, name, p);
    }
  }

  /** What the data of a parsed transaction must be, for a reason that is given once it is parsed. */
  ghost predicate DataIgnoredFor(w: World, channelId: string, tx: Persisted, channelType: ChannelType, data: string, reason: Error) {
    match reason
    case NotJson => !IsEmpty(tx.data) && w.digest(data) == None
    case DecryptedNotJson => IsEmpty(tx.data) && w.digest(data) == None
    case WrongChannelHash => channelType == UNKNOWN && w.digest(data).Some? && w.digest(data) != Some(channelId)
    case _ => false
  }

  lemma JudgeByData(w: World, provider: Provider, channelId: string, known: Option<Params>, channelType: ChannelType,
                    encryptionMethod: Option<string>, t: Timestamped, reason: Error)
    ensures var parsed := ParsePersisted(w, provider, t.transaction, channelType, known, encryptionMethod);
      Judge(w, provider, channelId, known, channelType, encryptionMethod, t).0 == Ignored(reason, t) <==>
        match parsed
        case Err(error) => reason == error
        case Ok(p) =>
          match DataOf(p.content)
          case Err(_) => reason == ImpossibleToDecryptTransaction
          case Ok(data) => DataIgnoredFor(w, channelId, t.transaction, channelType, data, reason)
  {
  }

  lemma OnlyParseErrors(w: World, provider: Provider, tx: Persisted, channelType: ChannelType, known: Option<Params>,
                        encryptionMethod: Option<string>)
    ensures var parsed := ParsePersisted(w, provider, tx, channelType, known, encryptionMethod);
      parsed.Err? ==> IsParseError(parsed.error)
  {
  }

  lemma DataIgnoredIff(w: World, provider: Provider, channelId: string, tx: Persisted, channelType: ChannelType, known: Option<Params>,
                       encryptionMethod: Option<string>, reason: Error)
    requires reason.NotJson? || reason.DecryptedNotJson? || reason.WrongChannelHash?
    ensures var parsed := ParsePersisted(w, provider, tx, channelType, known, encryptionMethod);
      (parsed.Ok? && DataOf(parsed.value.content).Ok?
       && DataIgnoredFor(w, channelId, tx, channelType, DataOf(parsed.value.content).value, reason))
      <==> IgnoredFor(w, provider, channelId, tx, channelType, known, encryptionMethod, reason)
  {
    hide ParsePersisted, SealsWith;
    var parsed := ParsePersisted(w, provider, tx, channelType, known, encryptionMethod);
    forall data: string ensures (parsed.Ok? && DataOf(parsed.value.content) == Ok(data)) <==>
      || (channelType != ENCRYPTED && OnlyData(tx, data))
      || (channelType != CLEAR && Seals(w, provider, tx, known, encryptionMethod, data))
    {
      ParsesIff(w, provider, tx, channelType, known, encryptionMethod, data);
    }
    if parsed.Ok? && DataOf(parsed.value.content).Ok? {
      var data := DataOf(parsed.value.content).value;
      assert DataOf(parsed.value.content) == Ok(data);
    }
  }

  /**
   The reasons are exact: an entry is ignored for a reason iff it meets the condition of
   that reason, so that the conditions exclude each other.
   */
  lemma IgnoredForIff(w: World, provider: Provider, channelId: string, known: Option<Params>, channelType: ChannelType,
                      encryptionMethod: Option<string>, t: Timestamped, reason: Error)
    ensures Judge(w, provider, channelId, known, channelType, encryptionMethod, t).0 == Ignored(reason, t) <==>
      IgnoredFor(w, provider, channelId, t.transaction, channelType, known, encryptionMethod, reason)
  {
    hide Judge, ParsePersisted;
    JudgeByData(w, provider, channelId, known, channelType, encryptionMethod, t, reason);
    OnlyParseErrors(w, provider, t.transaction, channelType, known, encryptionMethod);
    if IsParseError(reason) {
      hide IgnoredFor;
      ParseFailsIff(w, provider, channelId, t.transaction, channelType, known, encryptionMethod, reason);
    } else if reason == ImpossibleToDecryptTransaction {
      hide DoesNotOpen;
      UnopenedIff(w, provider, t.transaction, channelType, known, encryptionMethod);
    } else {
      hide IgnoredFor;
      DataIgnoredIff(w, provider, channelId, t.transaction, channelType, known, encryptionMethod, reason);
    }
  }
}
