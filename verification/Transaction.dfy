/** The clear and encrypted transaction objects, with the caches of the encrypted one. */
module Transaction {
  import opened Wrappers
  import opened TransactionTypes

  /** The immutable content of a transaction object. */
  datatype Content = ClearContent(data: string) | EncryptedContent(cipher: Cipher, key: Params)

  function DataOf(c: Content): Result<string, Error> {
    match c
    case ClearContent(data) => Ok(data)
    case EncryptedContent(cipher, key) =>
      match Open(cipher, key)
      case Some(plain) => Ok(plain)
      case None => Err(ImpossibleToDecryptTransaction)
  }

  function HashOf(w: World, c: Content): Result<string, Error> {
    match DataOf(c)
    case Err(e) => Err(e)
    case Ok(data) =>
      match w.digest(data)
      case Some(h) => Ok(h)
      case None => Err(if c.ClearContent? then NotJson else DecryptedNotJson)
  }

  function ErrorOf(w: World, c: Content): Option<Error> {
    match HashOf(w, c)
    case Ok(_) => None
    case Err(e) => Some(e)
  }

  /**
   An encrypted transaction. The empty string marks a cache that is not filled,
   so an empty plaintext is decrypted again at each call.
   */
  class EncryptedTransaction {
    const world: World
    const persistedData: Cipher
    const channelKey: Params
    var data: string
    var dataHashSerialized: string

    ghost function Abstract(): Content {
      EncryptedContent(persistedData, channelKey)
    }

    /** A filled cache holds what would be computed again. */
    ghost predicate Valid()
      reads this
    {
      && (data != "" ==> DataOf(Abstract()) == Ok(data))
      && (dataHashSerialized != "" ==> HashOf(world, Abstract()) == Ok(dataHashSerialized))
    }

    constructor (world: World, persistedData: Cipher, channelKey: Params)
      ensures Valid()
      ensures this.world == world && Abstract() == EncryptedContent(persistedData, channelKey)
    {
      this.world := world;
      this.persistedData := persistedData;
      this.channelKey := channelKey;
      data := "";
      dataHashSerialized := "";
    }

    method GetData() returns (r: Result<string, Error>)
      requires Valid()
      modifies `data
      ensures Valid()
      ensures r == DataOf(Abstract())
    {
      if data == "" {
        match Open(persistedData, channelKey) {
          case Some(plain) => data := plain;
          case None => return Err(ImpossibleToDecryptTransaction);
        }
      }
      r := Ok(data);
    }

    method GetHash() returns (r: Result<string, Error>)
      requires Valid()
      modifies this
      ensures Valid()
      ensures r == HashOf(world, Abstract())
    {
      if dataHashSerialized == "" {
        var d := GetData();
        if d.Err? {
          return Err(d.error);
        }
        match world.digest(d.value) {
          case Some(h) => dataHashSerialized := h;
          case None => return Err(DecryptedNotJson);
        }
      }
      r := Ok(dataHashSerialized);
    }

    method GetError() returns (r: Option<Error>)
      requires Valid()
      modifies this
      ensures Valid()
      ensures r == ErrorOf(world, Abstract())
    {
      var d := GetData();
      if d.Err? {
        return Some(d.error);
      }
      r := if world.digest(d.value).Some? then None else Some(DecryptedNotJson);
    }
  }
}
