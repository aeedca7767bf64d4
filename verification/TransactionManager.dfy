/** The write step and the read steps of the encrypted channel protocol. */
module TransactionManager {
  import opened Wrappers
  import opened TransactionTypes
  import opened Transaction
  import opened TransactionsParser
  import opened ChannelParser

  // ---------- the shapes that are written ----------

  /** Sets an entry of a dictionary: a name keeps its first position. */
  function PutKey(keys: Keys, e: KeyEntry): Keys {
    if keys == [] then [e]
    else if keys[0].name == e.name then [e] + keys[1..]
    else [keys[0]] + PutKey(keys[1..], e)
  }

  /** The channel key sealed for one stakeholder. */
  function KeyFor(w: World, p: Params, channelKey: string): KeyEntry {
    KeyEntry(Identity(w.addressOf(p.key)), Sealed(ECIES, p.key, channelKey))
  }

  /** The dictionary that shares the channel key with every stakeholder. */
  function KeysOf(w: World, params: seq<Params>, channelKey: string): Keys {
    if params == [] then []
    else PutKey(KeysOf(w, params[..|params| - 1], channelKey), KeyFor(w, params[|params| - 1], channelKey))
  }

  predicate AllEcies(params: seq<Params>) {
    forall i :: 0 <= i < |params| ==> params[i].algorithm == ECIES
  }

  function ClearWrite(w: World, data: string): Result<Persisted, Error> {
    if w.digest(data).None? then Err(NotJson) else Ok(ClearPersisted(data))
  }

  function EncryptedWriteInNewChannel(w: World, data: string, params: seq<Params>, freshKey: string): Result<Persisted, Error> {
    if w.digest(data).None? then Err(NotJson)
    else if !AllEcies(params) then Err(ParamsMustBeEcies)
    else Ok(Persisted(None, Some(Sealed(AES256_GCM, freshKey, data)), Some(KeysOf(w, params, freshKey)), Some(GCM_METHOD)))
  }

  function EncryptedWrite(w: World, data: string, channelKey: Params, params: seq<Params>): Result<Persisted, Error> {
    if channelKey.algorithm != AES256_GCM then Err(ChannelKeyMethodNotSupported)
    else if w.digest(data).None? then Err(NotJson)
    else
      var sealed := Some(Sealed(AES256_GCM, channelKey.key, data));
      if params == [] then Ok(Persisted(None, sealed, None, None))
      else if !AllEcies(params) then Err(ParamsMustBeEcies)
      else Ok(Persisted(None, sealed, Some(KeysOf(w, params, channelKey.key)), None))
  }

  // ---------- the write step ----------

  /** What is written, and the encryption method reported to the writer. */
  datatype Write = Write(transaction: Persisted, encryptionMethod: Option<string>)

  function WithMethod(r: Result<Persisted, Error>, encryptionMethod: Option<string>): Result<Write, Error> {
    match r
    case Ok(tx) => Ok(Write(tx, encryptionMethod))
    case Err(e) => Err(e)
  }

  /** The transaction a writer adds to a channel, given the log it reads, or why it throws instead. */
  function Persist(w: World, provider: Provider, log: Log, data: string, channelId: string,
                   params: seq<Params>, freshKey: string): Result<Write, Error>
  {
    if w.digest(data).None? then Err(NotJson)
    else if w.digest(data).value == channelId then
      if params == [] then WithMethod(ClearWrite(w, data), None)
      else WithMethod(EncryptedWriteInNewChannel(w, data, params, freshKey), Some(GCM_METHOD))
    else
      var d := Discover(w, provider, log);
      match d.channelType
      case UNKNOWN => Err(ChannelNotFound)
      case CLEAR => WithMethod(ClearWrite(w, data), None)
      case ENCRYPTED =>
        if d.channelKey.None? then Err(ChannelKeyNotFound)
        else WithMethod(EncryptedWrite(w, data, d.channelKey.value, params), d.encryptionMethod)
  }

  // ---------- the program's own form ----------

  /** The layer below: one append-only log per channel. */
  class DataAccess {
    var channels: map<string, Log>

    constructor ()
      ensures channels == map[]
    {
      channels := map[];
    }

    function LogOf(channelId: string): Log
      reads this
    {
      if channelId in channels then channels[channelId] else []
    }

    method PersistTransaction(transaction: Persisted, channelId: string, timestamp: int)
      modifies this
      ensures channels == old(channels)[channelId := old(LogOf(channelId)) + [Timestamped(PENDING, timestamp, transaction)]]
    {
      channels := channels[channelId := LogOf(channelId) + [Timestamped(PENDING, timestamp, transaction)]];
    }
  }

  class Manager {
    const world: World
    const provider: Provider
    const dataAccess: DataAccess
    const channelParser: LogReader

    ghost predicate Valid() {
      channelParser.parser.world == world && channelParser.parser.provider == provider
    }

    constructor (world: World, dataAccess: DataAccess, provider: Provider)
      ensures Valid()
      ensures this.world == world && this.dataAccess == dataAccess && this.provider == provider
    {
      this.world := world;
      this.dataAccess := dataAccess;
      this.provider := provider;
      channelParser := new LogReader(world, provider);
    }

    /** Fills the keys dictionary, one stakeholder at a time. */
    method ShareKey(params: seq<Params>, channelKey: string) returns (keys: Keys)
      ensures keys == KeysOf(world, params, channelKey)
    {
      keys := [];
      for i := 0 to |params|
        invariant keys == KeysOf(world, params[..i], channelKey)
      {
        assert params[..i + 1][..i] == params[..i];
        keys := PutKey(keys, KeyFor(world, params[i], channelKey));
      }
      assert params[..|params|] == params;
    }

    /**
     Appends exactly one entry to exactly one channel, or throws and leaves every
     channel as it was.
     */
    method PersistTransaction(transactionData: string, channelId: string, params: seq<Params>, freshKey: string, now: int)
      returns (r: Result<Option<string>, Error>)
      requires Valid()
      modifies dataAccess
      ensures var outcome := Persist(world, provider, old(dataAccess.LogOf(channelId)), transactionData, channelId, params, freshKey);
        match outcome
        case Err(e) => r == Err(e) && dataAccess.channels == old(dataAccess.channels)
        case Ok(write) =>
          && r == Ok(write.encryptionMethod)
          && dataAccess.channels == old(dataAccess.channels)[channelId :=
               old(dataAccess.LogOf(channelId)) + [Timestamped(PENDING, now, write.transaction)]]
    {
      var transaction := Persisted(None, None, None, None);
      var channelEncryptionMethod: Option<string> := None;
      var hash := world.digest(transactionData);
      if hash.None? {
        return Err(NotJson);
      }
      if channelId == hash.value {
        if |params| == 0 {
          transaction := ClearPersisted(transactionData);
        } else {
          if !AllEcies(params) {
            return Err(ParamsMustBeEcies);
          }
          var keys := ShareKey(params, freshKey);
          transaction := Persisted(None, Some(Sealed(AES256_GCM, freshKey, transactionData)), Some(keys), Some(GCM_METHOD));
          channelEncryptionMethod := transaction.encryptionMethod;
        }
      } else {
        var discovery := channelParser.GetChannelTypeAndChannelKey(dataAccess.LogOf(channelId));
        if discovery.channelType == UNKNOWN {
          return Err(ChannelNotFound);
        }
        if discovery.channelType == CLEAR {
          transaction := ClearPersisted(transactionData);
        }
        if discovery.channelType == ENCRYPTED {
          if discovery.channelKey.None? {
            return Err(ChannelKeyNotFound);
          }
          var channelKey := discovery.channelKey.value;
          if channelKey.algorithm != AES256_GCM {
            return Err(ChannelKeyMethodNotSupported);
          }
          var encrypted := Some(Sealed(AES256_GCM, channelKey.key, transactionData));
          if |params| == 0 {
            transaction := Persisted(None, encrypted, None, None);
          } else {
            if !AllEcies(params) {
              return Err(ParamsMustBeEcies);
            }
            var keys := ShareKey(params, channelKey.key);
            transaction := Persisted(None, encrypted, Some(keys), None);
          }
          channelEncryptionMethod := discovery.encryptionMethod;
        }
      }
      dataAccess.PersistTransaction(transaction, channelId, now);
      r := Ok(channelEncryptionMethod);
    }

    method GetTransactionsByChannelId(channelId: string)
      returns (encryptionMethod: Option<string>, transactions: seq<Option<Timestamped>>,
               ignoredTransactions: seq<Option<IgnoredTransaction>>)
      requires Valid()
      ensures var cleaned := Clean(world, provider, channelId, dataAccess.LogOf(channelId));
        && transactions == Valids(cleaned.verdicts)
        && ignoredTransactions == Ignoreds(cleaned.verdicts)
        && encryptionMethod == if Present(cleaned.encryptionMethod) then cleaned.encryptionMethod else None
    {
      encryptionMethod, transactions, ignoredTransactions :=
        channelParser.DecryptAndCleanChannel(channelId, dataAccess.LogOf(channelId));
      if !Present(encryptionMethod) {
        encryptionMethod := None;
      }
    }

    /** Cleans every channel of a topic query on its own: no channel influences another. */
    method ParseMultipleChannels(channels: map<string, Log>)
      returns (transactions: map<string, seq<Option<Timestamped>>>,
               ignoredTransactions: map<string, seq<Option<IgnoredTransaction>>>)
      requires Valid()
      ensures transactions.Keys == ignoredTransactions.Keys == channels.Keys
      ensures forall ch :: ch in channels ==>
        && transactions[ch] == Valids(Clean(world, provider, ch, channels[ch]).verdicts)
        && ignoredTransactions[ch] == Ignoreds(Clean(world, provider, ch, channels[ch]).verdicts)
    {
      transactions, ignoredTransactions := map[], map[];
      var todo := channels.Keys;
      while todo != {}
        invariant todo <= channels.Keys
        invariant transactions.Keys == ignoredTransactions.Keys == channels.Keys - todo
        invariant forall ch :: ch in transactions ==>
          && transactions[ch] == Valids(Clean(world, provider, ch, channels[ch]).verdicts)
          && ignoredTransactions[ch] == Ignoreds(Clean(world, provider, ch, channels[ch]).verdicts)
        decreases todo
      {
        var channelId :| channelId in todo;
        var _, valid, ignored := channelParser.DecryptAndCleanChannel(channelId, channels[channelId]);
        transactions := transactions[channelId := valid];
        ignoredTransactions := ignoredTransactions[channelId := ignored];
        todo := todo - {channelId};
      }
    }
  }
}
