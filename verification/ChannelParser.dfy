/**
 The two passes over the log of a channel: discovering its type and key, then
 decrypting and cleaning it.
 */
module ChannelParser {
  import opened Wrappers
  import opened TransactionTypes
  import opened Transaction
  import opened TransactionsParser

  type Log = seq<Timestamped>

  // ---------- first pass: discovery ----------

  datatype Discovery = Discovery(channelType: ChannelType, channelKey: Option<Params>, encryptionMethod: Option<string>)

  const UNDISCOVERED := Discovery(UNKNOWN, None, None)

  function DiscoverStep(w: World, provider: Provider, d: Discovery, tx: Persisted): Discovery {
    if d.channelType == CLEAR || d.channelKey.Some? then d
    else
      match ParsePersisted(w, provider, tx, d.channelType, d.channelKey, d.encryptionMethod)
      case Err(error) =>
        if error.ImpossibleToDecryptKey? && d.channelType == UNKNOWN
        then d.(channelType := ENCRYPTED, encryptionMethod := tx.encryptionMethod)
        else d
      case Ok(p) =>
        if ErrorOf(w, p.content).Some? then d
        else Discovery(if p.channelKey.Some? then ENCRYPTED else CLEAR, p.channelKey, p.encryptionMethod)
  }

  /** What is known of the channel after its first entries. */
  function Discover(w: World, provider: Provider, log: Log): Discovery {
    if log == [] then UNDISCOVERED
    else DiscoverStep(w, provider, Discover(w, provider, log[..|log| - 1]), log[|log| - 1].transaction)
  }

  // ---------- second pass: cleaning ----------

  /** The verdict on one entry: accepted with its decrypted data, or ignored for a reason. */
  datatype Verdict = Accepted(entry: Timestamped) | Ignored(reason: Error, entry: Timestamped)

  /** The captured variables of the walk and the verdicts so far. */
  datatype Cleaning = Cleaning(channelType: ChannelType, encryptionMethod: Option<string>, verdicts: seq<Verdict>)

  function AcceptedEntry(t: Timestamped, data: string): Timestamped {
    Timestamped(t.state, t.timestamp, ClearPersisted(data))
  }

  /** The verdict on an entry and the type and method of the channel after it. */
  function Judge(w: World, provider: Provider, channelId: string, channelKey: Option<Params>,
                 channelType: ChannelType, encryptionMethod: Option<string>, t: Timestamped)
    : (Verdict, ChannelType, Option<string>)
  {
    match ParsePersisted(w, provider, t.transaction, channelType, channelKey, encryptionMethod)
    case Err(error) => (Ignored(error, t), channelType, encryptionMethod)
    case Ok(p) =>
      match HashOf(w, p.content)
      case Err(error) => (Ignored(error, t), channelType, encryptionMethod)
      case Ok(hash) =>
        if channelType != UNKNOWN then
          (Accepted(AcceptedEntry(t, DataOf(p.content).value)), channelType, encryptionMethod)
        else if hash != channelId then
          (Ignored(WrongChannelHash, t), channelType, encryptionMethod)
        else
          (Accepted(AcceptedEntry(t, DataOf(p.content).value)),
           if p.channelKey.Some? then ENCRYPTED else CLEAR, p.encryptionMethod)
  }

  /** The walk with a given channel key, after a prefix of the log. */
  function CleanWith(w: World, provider: Provider, channelId: string, channelKey: Option<Params>, log: Log): Cleaning {
    if log == [] then Cleaning(UNKNOWN, None, [])
    else
      var before := CleanWith(w, provider, channelId, channelKey, log[..|log| - 1]);
      var (verdict, channelType, encryptionMethod) :=
        Judge(w, provider, channelId, channelKey, before.channelType, before.encryptionMethod, log[|log| - 1]);
      Cleaning(channelType, encryptionMethod, before.verdicts + [verdict])
  }

  function Clean(w: World, provider: Provider, channelId: string, log: Log): Cleaning {
    CleanWith(w, provider, channelId, Discover(w, provider, log).channelKey, log)
  }

  // ---------- the two lists a reader receives ----------

  datatype IgnoredTransaction = IgnoredTransaction(reason: Error, transaction: Timestamped)

  function Valids(verdicts: seq<Verdict>): seq<Option<Timestamped>> {
    seq(|verdicts|, i requires 0 <= i < |verdicts| =>
      if verdicts[i].Accepted? then Some(verdicts[i].entry) else None)
  }

  function Ignoreds(verdicts: seq<Verdict>): seq<Option<IgnoredTransaction>> {
    seq(|verdicts|, i requires 0 <= i < |verdicts| =>
      if verdicts[i].Ignored? then Some(IgnoredTransaction(verdicts[i].reason, verdicts[i].entry)) else None)
  }

  /** The accepted entries, in order, without the null positions. */
  function AcceptedOf(verdicts: seq<Verdict>): Log {
    if verdicts == [] then []
    else
      var before := AcceptedOf(verdicts[..|verdicts| - 1]);
      var last := verdicts[|verdicts| - 1];
      if last.Accepted? then before + [last.entry] else before
  }

  // ---------- the program's own form ----------

  class LogReader {
    const parser: Parser

    constructor (world: World, provider: Provider)
      ensures parser.world == world && parser.provider == provider
      ensures fresh(parser)
    {
      parser := new Parser(world, provider);
    }

    /** Data, error and hash of a parsed transaction, through the caching object when it is encrypted. */
    method Inspect(content: Content) returns (error: Option<Error>, hash: string, data: string)
      ensures error == ErrorOf(parser.world, content)
      ensures error.None? ==> HashOf(parser.world, content) == Ok(hash) && DataOf(content) == Ok(data)
    {
      error, hash, data := None, "", "";
      match content {
        case ClearContent(clear) =>
          var h := parser.world.digest(clear);
          if h.None? {
            return Some(NotJson), "", "";
          }
          hash, data := h.value, clear;
        case EncryptedContent(cipher, key) =>
          var tx := new EncryptedTransaction(parser.world, cipher, key);
          error := tx.GetError();
          if error.None? {
            var h := tx.GetHash();
            var d := tx.GetData();
            hash, data := h.value, d.value;
          }
      }
    }

    method GetChannelTypeAndChannelKey(log: Log) returns (result: Discovery)
      ensures result == Discover(parser.world, parser.provider, log)
    {
      result := UNDISCOVERED;
      for i := 0 to |log|
        invariant result == Discover(parser.world, parser.provider, log[..i])
      {
        assert log[..i + 1][..i] == log[..i];
        // skip once the channel is clear or its key is found
        if result.channelType != CLEAR && result.channelKey.None? {
          var parsed := parser.Parse(log[i].transaction, result.channelType, result.channelKey, result.encryptionMethod);
          if parsed.Err? {
            if parsed.error.ImpossibleToDecryptKey? && result.channelType == UNKNOWN {
              result := result.(channelType := ENCRYPTED, encryptionMethod := log[i].transaction.encryptionMethod);
            }
          } else {
            var error, _, _ := Inspect(parsed.value.content);
            if error.None? {
              result := Discovery(if parsed.value.channelKey.Some? then ENCRYPTED else CLEAR,
                                  parsed.value.channelKey, parsed.value.encryptionMethod);
            }
          }
        }
      }
      assert log[..|log|] == log;
    }

    method DecryptAndCleanChannel(channelId: string, log: Log)
      returns (encryptionMethod: Option<string>, transactions: seq<Option<Timestamped>>,
               ignoredTransactions: seq<Option<IgnoredTransaction>>)
      ensures var cleaned := Clean(parser.world, parser.provider, channelId, log);
        && encryptionMethod == cleaned.encryptionMethod
        && transactions == Valids(cleaned.verdicts)
        && ignoredTransactions == Ignoreds(cleaned.verdicts)
    {
      var channelType: ChannelType := UNKNOWN;
      encryptionMethod := None;
      var discovery := GetChannelTypeAndChannelKey(log);
      var channelKey := discovery.channelKey;
      var result: seq<Verdict> := [];
      for i := 0 to |log|
        invariant Cleaning(channelType, encryptionMethod, result)
               == CleanWith(parser.world, parser.provider, channelId, channelKey, log[..i])
      {
        assert log[..i + 1][..i] == log[..i];
        var parsed := parser.Parse(log[i].transaction, channelType, channelKey, encryptionMethod);
        if parsed.Err? {
          result := result + [Ignored(parsed.error, log[i])];
        } else {
          var error, hash, data := Inspect(parsed.value.content);
          if error.Some? {
            result := result + [Ignored(error.value, log[i])];
          } else if channelType == UNKNOWN && hash != channelId {
            result := result + [Ignored(WrongChannelHash, log[i])];
          } else {
            if channelType == UNKNOWN {
              channelType := if parsed.value.channelKey.Some? then ENCRYPTED else CLEAR;
              encryptionMethod := parsed.value.encryptionMethod;
            }
            result := result + [Accepted(AcceptedEntry(log[i], data))];
          }
        }
      }
      assert log[..|log|] == log;
      transactions := Valids(result);
      ignoredTransactions := Ignoreds(result);
    }
  }
}
