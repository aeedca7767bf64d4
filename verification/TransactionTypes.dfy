/**
 The values that transactions are made of, ideal encryption, and the functions
 of the program that stay uninterpreted.
 */
module TransactionTypes {
  import opened Wrappers

  datatype Method = ECIES | AES256_CBC | AES256_GCM

  datatype Params = Params(algorithm: Method, key: string)

  /**
   A serialized ciphertext as a reader sees it: either sealed with a method and a
   key, or a string that nothing opens. An ECIES ciphertext is sealed with a
   public key.
   */
  datatype Cipher = Sealed(algorithm: Method, key: string, plain: string) | Noise(raw: string)

  /** A property name of the keys dictionary, after the multi-format parser has looked at it. */
  datatype Label = Identity(address: string) | OtherLabel(text: string)

  datatype KeyEntry = KeyEntry(name: Label, cipher: Cipher)

  /** The keys dictionary, in enumeration order. */
  type Keys = seq<KeyEntry>

  datatype Persisted = Persisted(
    data: Option<string>,
    encryptedData: Option<Cipher>,
    keys: Option<Keys>,
    encryptionMethod: Option<string>)

  datatype TransactionState = PENDING | CONFIRMED

  datatype Timestamped = Timestamped(state: TransactionState, timestamp: int, transaction: Persisted)

  datatype ChannelType = UNKNOWN | CLEAR | ENCRYPTED

  /**
   The uninterpreted functions: `digest` is the serialized hash of the parsed
   data, absent when the data is not JSON; `addressOf` is the address of a
   public key.
   */
  datatype World = World(digest: string -> Option<string>, addressOf: string -> string)

  /** JSON text is never empty: the only fact about `digest` any theorem relies on. */
  ghost predicate ValidWorld(w: World) {
    w.digest("").None?
  }

  /** The addresses whose private key a decryption provider holds; absent without a provider. */
  type Provider = Option<set<string>>

  datatype Error =
    | ClearNotAllowed
    | OnlyDataAllowed
    | EncryptedNotAllowed
    | MethodAndKeysNeeded
    | MethodAlreadyGiven
    | KeysNeeded
    | MethodNeeded
    | NoPayload
    | NoProvider
    | MethodNotSupported(name: string)
    | ImpossibleToDecryptKey(reason: string)
    | ImpossibleToDecryptTransaction
    | NotJson
    | DecryptedNotJson
    | WrongChannelHash
    | ChannelNotFound
    | ChannelKeyNotFound
    | ChannelKeyMethodNotSupported
    | ParamsMustBeEcies

  const GCM_METHOD: string := "ecies-aes256-gcm"
  const CBC_METHOD: string := "ecies-aes256-cbc"

  /** Truthiness of an optional string. */
  predicate Present(s: Option<string>) {
    s.Some? && s.value != ""
  }

  /** Truthiness of an optional ciphertext. */
  predicate HasCipher(c: Option<Cipher>) {
    c.Some? && c.value != Noise("")
  }

  /** Symmetric decryption under ideal encryption. */
  function Open(c: Cipher, p: Params): Option<string> {
    if c.Sealed? && c.algorithm == p.algorithm && c.key == p.key && c.algorithm != ECIES then Some(c.plain) else None
  }

  /** What a decryption provider does with an encrypted channel key for one of its identities. */
  function OpenForIdentity(w: World, c: Cipher, address: string): Result<string, string> {
    if c.Noise? then Err("not a multi-format string")
    else if c.algorithm != ECIES then Err("The data must be encrypted with ecies")
    else if w.addressOf(c.key) != address then Err("decryption failed")
    else Ok(c.plain)
  }

  /** A clear transaction as persisted. */
  function ClearPersisted(data: string): Persisted {
    Persisted(Some(data), None, None, None)
  }

  /** The data an entry carries in the open. */
  function DataIn(t: Timestamped): string {
    if t.transaction.data.Some? then t.transaction.data.value else ""
  }
}
