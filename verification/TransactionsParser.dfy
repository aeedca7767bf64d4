/** Parsing one persisted transaction, and the search for the channel key in its keys dictionary. */
module TransactionsParser {
  import opened Wrappers
  import opened TransactionTypes
  import opened Transaction

  datatype Parsed = Parsed(content: Content, channelKey: Option<Params>, encryptionMethod: Option<string>)

  /** The algorithm of the channel key named by an encryption method. */
  function KeyAlgorithm(encryptionMethod: string): Option<Method> {
    if encryptionMethod == CBC_METHOD then Some(AES256_CBC)
    else if encryptionMethod == GCM_METHOD then Some(AES256_GCM)
    else None
  }

  /** State of the search: the key found so far ("" for none) and the last failure. */
  datatype Search = Search(found: string, reason: string)

  function SearchStep(w: World, registered: set<string>, s: Search, e: KeyEntry): Search {
    if s.found == "" && e.name.Identity? && e.name.address in registered then
      match OpenForIdentity(w, e.cipher, e.name.address)
      case Ok(key) => s.(found := key)
      case Err(message) => s.(reason := message)
    else
      s
  }

  /** The search after a prefix of the dictionary. */
  function SearchKeys(w: World, registered: set<string>, keys: Keys): Search {
    if keys == [] then Search("", "")
    else SearchStep(w, registered, SearchKeys(w, registered, keys[..|keys| - 1]), keys[|keys| - 1])
  }

  function DecryptChannelKey(w: World, provider: Provider, keys: Keys, encryptionMethod: string): Result<Params, Error> {
    if provider.None? then Err(NoProvider)
    else
      match KeyAlgorithm(encryptionMethod)
      case None => Err(MethodNotSupported(encryptionMethod))
      case Some(algorithm) =>
        var s := SearchKeys(w, provider.value, keys);
        if s.found == "" then Err(ImpossibleToDecryptKey(s.reason)) else Ok(Params(algorithm, s.found))
  }

  /**
   The decision table for one persisted transaction, given what is known of its
   channel: its type, its key and its encryption method.
   */
  function ParsePersisted(w: World, provider: Provider, tx: Persisted, channelType: ChannelType,
                          channelKey: Option<Params>, encryptionMethod: Option<string>): Result<Parsed, Error> {
    if Present(tx.data) then
      if channelType == ENCRYPTED then Err(ClearNotAllowed)
      else if HasCipher(tx.encryptedData) || Present(tx.encryptionMethod) || tx.keys.Some? then Err(OnlyDataAllowed)
      else Ok(Parsed(ClearContent(tx.data.value), None, None))
    else if HasCipher(tx.encryptedData) then
      if channelType == CLEAR then Err(EncryptedNotAllowed)
      else
        match (channelKey, Present(encryptionMethod))
        case (None, false) =>
          if !Present(tx.encryptionMethod) || tx.keys.None? then Err(MethodAndKeysNeeded)
          else WithKey(tx.encryptedData.value, tx.encryptionMethod,
                       DecryptChannelKey(w, provider, tx.keys.value, tx.encryptionMethod.value))
        case (None, true) =>
          if Present(tx.encryptionMethod) then Err(MethodAlreadyGiven)
          else if tx.keys.None? then Err(KeysNeeded)
          else WithKey(tx.encryptedData.value, encryptionMethod,
                       DecryptChannelKey(w, provider, tx.keys.value, encryptionMethod.value))
        case (Some(key), false) =>
          if !Present(tx.encryptionMethod) then Err(MethodNeeded)
          else WithKey(tx.encryptedData.value, tx.encryptionMethod, Ok(key))
        case (Some(key), true) =>
          if Present(tx.encryptionMethod) then Err(MethodAlreadyGiven)
          else WithKey(tx.encryptedData.value, encryptionMethod, Ok(key))
    else Err(NoPayload)
  }

  function WithKey(cipher: Cipher, encryptionMethod: Option<string>, key: Result<Params, Error>): Result<Parsed, Error> {
    match key
    case Ok(k) => Ok(Parsed(EncryptedContent(cipher, k), Some(k), encryptionMethod))
    case Err(e) => Err(e)
  }

  // ---------- the program's own form ----------

  class Parser {
    const world: World
    const provider: Provider

    constructor (world: World, provider: Provider)
      ensures this.world == world && this.provider == provider
    {
      this.world := world;
      this.provider := provider;
    }

    /** Walks the dictionary with an updated key and error reason. */
    method FindChannelKey(keys: Keys, encryptionMethod: string) returns (r: Result<Params, Error>)
      ensures r == DecryptChannelKey(world, provider, keys, encryptionMethod)
    {
      if provider.None? {
        return Err(NoProvider);
      }
      var algorithm: Method;
      if encryptionMethod == CBC_METHOD {
        algorithm := AES256_CBC;
      } else if encryptionMethod == GCM_METHOD {
        algorithm := AES256_GCM;
      } else {
        return Err(MethodNotSupported(encryptionMethod));
      }
      var errorReason, decryptedChannelKey := "", "";
      for i := 0 to |keys|
        invariant Search(decryptedChannelKey, errorReason) == SearchKeys(world, provider.value, keys[..i])
      {
        assert keys[..i + 1][..i] == keys[..i];
        if decryptedChannelKey == "" && keys[i].name.Identity? && keys[i].name.address in provider.value {
          match OpenForIdentity(world, keys[i].cipher, keys[i].name.address) {
            case Ok(key) => decryptedChannelKey := key;
            case Err(message) => errorReason := message;
          }
        }
      }
      assert keys[..|keys|] == keys;
      if decryptedChannelKey == "" {
        return Err(ImpossibleToDecryptKey(errorReason));
      }
      r := Ok(Params(algorithm, decryptedChannelKey));
    }

    /** Follows the branches of the program, reassigning the key and the method. */
    method Parse(tx: Persisted, channelType: ChannelType, knownKey: Option<Params>, knownMethod: Option<string>)
      returns (r: Result<Parsed, Error>)
      ensures r == ParsePersisted(world, provider, tx, channelType, knownKey, knownMethod)
    {
      var channelKey, encryptionMethod := knownKey, knownMethod;
      if Present(tx.data) {
        if channelType == ENCRYPTED {
          return Err(ClearNotAllowed);
        }
        if HasCipher(tx.encryptedData) || Present(tx.encryptionMethod) || tx.keys.Some? {
          return Err(OnlyDataAllowed);
        }
        return Ok(Parsed(ClearContent(tx.data.value), None, None));
      }
      if !HasCipher(tx.encryptedData) {
        return Err(NoPayload);
      }
      if channelType == CLEAR {
        return Err(EncryptedNotAllowed);
      }
      if channelKey.None? {
        if !Present(encryptionMethod) {
          if !Present(tx.encryptionMethod) || tx.keys.None? {
            return Err(MethodAndKeysNeeded);
          }
          encryptionMethod := tx.encryptionMethod;
        } else {
          if Present(tx.encryptionMethod) {
            return Err(MethodAlreadyGiven);
          }
          if tx.keys.None? {
            return Err(KeysNeeded);
          }
        }
        var found := FindChannelKey(tx.keys.value, encryptionMethod.value);
        if found.Err? {
          return Err(found.error);
        }
        channelKey := Some(found.value);
      } else if !Present(encryptionMethod) {
        if !Present(tx.encryptionMethod) {
          return Err(MethodNeeded);
        }
        encryptionMethod := tx.encryptionMethod;
      } else if Present(tx.encryptionMethod) {
        return Err(MethodAlreadyGiven);
      }
      r := Ok(Parsed(EncryptedContent(tx.encryptedData.value, channelKey.value), channelKey, encryptionMethod));
    }
  }

  // ---------- what the search finds ----------

  /** Some entry names one of the registered addresses. */
  ghost predicate Lists(keys: Keys, registered: set<string>) {
    exists i :: 0 <= i < |keys| && keys[i].name.Identity? && keys[i].name.address in registered
  }

  /** Every entry holds `key`, sealed for the identity that names the entry. */
  ghost predicate Shares(w: World, keys: Keys, key: string) {
    forall i :: 0 <= i < |keys| ==> EntryShares(w, keys[i], key)
  }

  ghost predicate EntryShares(w: World, e: KeyEntry, key: string) {
    && e.cipher.Sealed? && e.cipher.algorithm == ECIES && e.cipher.plain == key
    && e.name == Identity(w.addressOf(e.cipher.key))
  }

  /** In a dictionary that shares one key, exactly the listed identities find it. */
  lemma {:induction false} SearchFindsSharedKey(w: World, registered: set<string>, keys: Keys, key: string)
    requires Shares(w, keys, key) && key != ""
    ensures SearchKeys(w, registered, keys).found == if Lists(keys, registered) then key else ""
  {
    if keys != [] {
      var rest, e := keys[..|keys| - 1], keys[|keys| - 1];
      assert forall i :: 0 <= i < |rest| ==> rest[i] == keys[i];
      SearchFindsSharedKey(w, registered, rest, key);
      assert EntryShares(w, e, key);
      assert Lists(keys, registered) <==> (Lists(rest, registered) || (e.name.Identity? && e.name.address in registered)) by {
        if Lists(rest, registered) {
          var i :| 0 <= i < |rest| && rest[i].name.Identity? && rest[i].name.address in registered;
          assert keys[i].name.Identity? && keys[i].name.address in registered;
        }
      }
    }
  }

  /** The entry was sealed for one of the registered addresses and holds `key`. */
  ghost predicate SealedForReader(w: World, registered: set<string>, e: KeyEntry, key: string) {
    EntryShares(w, e, key) && e.name.address in registered
  }

  /**
   A key that the search returns was sealed, in this dictionary, for one of the
   provider's own identities: noise never makes a reader accept a key it could
   not open.
   */
  lemma {:induction false} FoundKeyWasSealedForReader(w: World, registered: set<string>, keys: Keys)
    requires SearchKeys(w, registered, keys).found != ""
    ensures exists i :: 0 <= i < |keys| && SealedForReader(w, registered, keys[i], SearchKeys(w, registered, keys).found)
  {
    var rest, last := keys[..|keys| - 1], |keys| - 1;
    if SearchKeys(w, registered, rest).found != "" {
      FoundKeyWasSealedForReader(w, registered, rest);
      var i :| 0 <= i < |rest| && SealedForReader(w, registered, rest[i], SearchKeys(w, registered, rest).found);
      assert keys[i] == rest[i];
    } else {
      assert SealedForReader(w, registered, keys[last], SearchKeys(w, registered, keys).found);
    }
  }
}
