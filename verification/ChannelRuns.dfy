/** Whole runs of the encrypted channel protocol: any number of writers, any stakeholders at each step. */
module ChannelRuns {
  import opened Wrappers
  import opened TransactionTypes
  import opened Transaction
  import opened TransactionsParser
  import opened ChannelParser
  import opened ChannelLaws
  import opened TransactionManager

  // ---------- runs ----------

  /** One call of the write step, by a writer with its own decryption provider. */
  datatype Op = Op(writer: Provider, data: string, params: seq<Params>, freshKey: string, now: int)

  /** The log of a channel, and the data its writers meant it to hold. */
  datatype Channel = Channel(log: Log, written: seq<string>)

  /** The operation persists the creation data again. */
  predicate Recreates(w: World, channelId: string, op: Op) {
    w.digest(op.data) == Some(channelId)
  }

  function Step(w: World, channelId: string, c: Channel, op: Op): Channel {
    match Persist(w, op.writer, c.log, op.data, channelId, op.params, op.freshKey)
    case Err(_) => c
    case Ok(write) =>
      Channel(c.log + [Timestamped(PENDING, op.now, write.transaction)],
              if c.log != [] && Recreates(w, channelId, op) then c.written else c.written + [op.data])
  }

  function Run(w: World, channelId: string, c: Channel, ops: seq<Op>): Channel {
    if ops == [] then c
    else Step(w, channelId, Run(w, channelId, c, ops[..|ops| - 1]), ops[|ops| - 1])
  }

  /** An operation that creates an encrypted channel. The generated key is never empty. */
  predicate CreatesEncrypted(w: World, channelId: string, op: Op) {
    Recreates(w, channelId, op) && op.params != [] && AllEcies(op.params) && op.freshKey != ""
  }

  /** The run from the empty channel. */
  function RunFrom(w: World, channelId: string, first: Op, ops: seq<Op>): Channel {
    Run(w, channelId, Step(w, channelId, Channel([], []), first), ops)
  }

  ghost predicate NoRecreation(w: World, channelId: string, ops: seq<Op>) {
    forall i :: 0 <= i < |ops| ==> !Recreates(w, channelId, ops[i])
  }

  /** Somebody writes the creation data again in clear. */
  ghost predicate RecreatesInClear(w: World, channelId: string, ops: seq<Op>) {
    exists i :: 0 <= i < |ops| && Recreates(w, channelId, ops[i]) && ops[i].params == []
  }

  /** Either every writer has a decryption provider, or nobody writes the creation data again in clear. */
  ghost predicate SafeOps(w: World, channelId: string, ops: seq<Op>) {
    || (forall i :: 0 <= i < |ops| ==> ops[i].writer.Some?)
    || !RecreatesInClear(w, channelId, ops)
  }

  // ---------- the shapes found in the log of such a run ----------

  /** Sealed under `key`, without an encryption method, sharing that key if it shares any. */
  ghost predicate IsHonest(w: World, key: string, tx: Persisted) {
    && tx.data == None && tx.encryptionMethod == None
    && tx.encryptedData.Some? && tx.encryptedData.value.Sealed?
    && tx.encryptedData.value == Sealed(AES256_GCM, key, tx.encryptedData.value.plain)
    && w.digest(tx.encryptedData.value.plain).Some?
    && (tx.keys.Some? ==> Shares(w, tx.keys.value, key))
  }

  ghost predicate IsCreation(w: World, channelId: string, key: string, tx: Persisted) {
    && IsHonest(w, key, tx.(encryptionMethod := None)) && tx.encryptionMethod == Some(GCM_METHOD) && tx.keys.Some?
    && w.digest(tx.encryptedData.value.plain) == Some(channelId)
  }

  predicate IsClearEntry(w: World, tx: Persisted) {
    tx.data.Some? && tx == ClearPersisted(tx.data.value) && w.digest(tx.data.value).Some?
  }

  predicate IsSealedRecreation(tx: Persisted) {
    && tx.data == None && tx.encryptionMethod == Some(GCM_METHOD)
    && tx.encryptedData.Some? && tx.encryptedData.value.Sealed? && tx.keys.Some?
  }

  ghost predicate LaterShape(w: World, channelId: string, key: string, tx: Persisted) {
    IsHonest(w, key, tx) || IsClearEntry(w, tx) || IsSealedRecreation(tx)
  }

  ghost predicate Inv(w: World, channelId: string, key: string, log: Log) {
    && key != "" && log != []
    && IsCreation(w, channelId, key, log[0].transaction)
    && forall i :: 1 <= i < |log| ==> LaterShape(w, channelId, key, log[i].transaction)
  }

  ghost predicate NoClearEntry(w: World, log: Log) {
    forall i :: 0 <= i < |log| ==> !IsClearEntry(w, log[i].transaction)
  }

  /** The entry shares the channel key with one of these addresses. */
  ghost predicate SharesWith(log: Log, i: nat, registered: set<string>) {
    && i < |log| && log[i].transaction.keys.Some? && (i == 0 || log[i].transaction.encryptionMethod == None)
    && Lists(log[i].transaction.keys.value, registered)
  }

  /** Some entry, the first or a later one, shares the channel key with one of these addresses. */
  ghost predicate CanOpen(log: Log, registered: set<string>) {
    exists i: nat :: SharesWith(log, i, registered)
  }

  /** The data sealed by the creation and the honest entries, in order. */
  function HonestData(log: Log): seq<string> {
    if log == [] then []
    else
      var before, tx := HonestData(log[..|log| - 1]), log[|log| - 1].transaction;
      if (|log| == 1 || (tx.data == None && tx.encryptionMethod == None)) && tx.encryptedData.Some? && tx.encryptedData.value.Sealed?
      then before + [tx.encryptedData.value.plain]
      else before
  }

  /** The data appended in clear, other than the creation data, in order. */
  function LeakedData(w: World, channelId: string, log: Log): seq<string> {
    if log == [] then []
    else
      var before, tx := LeakedData(w, channelId, log[..|log| - 1]), log[|log| - 1].transaction;
      if IsClearEntry(w, tx) && w.digest(tx.data.value) != Some(channelId) then before + [tx.data.value] else before
  }

  /** What was written is what is sealed in the log and what leaked into it. */
  ghost predicate Accounted(w: World, channelId: string, c: Channel) {
    && multiset(c.written) == multiset(HonestData(c.log)) + multiset(LeakedData(w, channelId, c.log))
    && (LeakedData(w, channelId, c.log) == [] ==> c.written == HonestData(c.log))
  }

  /** The data a reader receives. */
  function DataRead(verdicts: seq<Verdict>): seq<string> {
    var accepted := AcceptedOf(verdicts);
    seq(|accepted|, i requires 0 <= i < |accepted| => DataIn(accepted[i]))
  }

  // ---------- the keys dictionary ----------

  ghost predicate Named(keys: Keys, name: Label) {
    exists i :: 0 <= i < |keys| && keys[i].name == name
  }

  lemma {:induction false} PutKeyKeepsSharing(w: World, keys: Keys, e: KeyEntry, key: string)
    requires Shares(w, keys, key) && EntryShares(w, e, key)
    ensures Shares(w, PutKey(keys, e), key)
    ensures forall name :: Named(PutKey(keys, e), name) <==> Named(keys, name) || name == e.name
  {
    var after := PutKey(keys, e);
    if keys == [] {
      assert after[0] == e;
    } else if keys[0].name == e.name {
      assert forall i :: 0 < i < |keys| ==> after[i] == keys[i];
      assert after[0] == e;
    } else {
      var rest := keys[1..];
      assert forall i :: 0 <= i < |rest| ==> rest[i] == keys[i + 1];
      PutKeyKeepsSharing(w, rest, e, key);
      var tail := PutKey(rest, e);
      assert after[0] == keys[0] && forall i :: 0 <= i < |tail| ==> after[i + 1] == tail[i];
      forall name ensures Named(after, name) <==> Named(keys, name) || name == e.name {
        assert Named(after, name) <==> name == keys[0].name || Named(tail, name) by {
          NamedCons(keys[0], tail, name);
        }
        NamedCons(keys[0], rest, name);
        assert keys == [keys[0]] + rest;
      }
    }
  }

  lemma NamedCons(e: KeyEntry, rest: Keys, name: Label)
    ensures Named([e] + rest, name) <==> name == e.name || Named(rest, name)
  {
    var all := [e] + rest;
    assert all[0] == e && forall i :: 0 <= i < |rest| ==> all[i + 1] == rest[i];
    if Named(all, name) {
      var i :| 0 <= i < |all| && all[i].name == name;
      assert i > 0 ==> rest[i - 1].name == name;
    }
  }

  /** The dictionary shares the key with every stakeholder and with nobody else, even when some are repeated. */
  lemma {:induction false} KeysAreShared(w: World, params: seq<Params>, key: string)
    ensures Shares(w, KeysOf(w, params, key), key)
    ensures forall a: string :: Named(KeysOf(w, params, key), Identity(a)) <==> exists i :: 0 <= i < |params| && w.addressOf(params[i].key) == a
  {
    if params != [] {
      var rest, last := params[..|params| - 1], params[|params| - 1];
      KeysAreShared(w, rest, key);
      PutKeyKeepsSharing(w, KeysOf(w, rest, key), KeyFor(w, last, key), key);
      forall a: string
        ensures Named(KeysOf(w, params, key), Identity(a)) <==> exists i :: 0 <= i < |params| && w.addressOf(params[i].key) == a
      {
        assert forall i :: 0 <= i < |rest| ==> params[i] == rest[i];
        assert (exists i :: 0 <= i < |params| && w.addressOf(params[i].key) == a)
          <==> (exists i :: 0 <= i < |rest| && w.addressOf(rest[i].key) == a) || w.addressOf(last.key) == a;
      }
    }
  }

  lemma StakeholderIsListed(w: World, params: seq<Params>, key: string, i: nat, registered: set<string>)
    requires i < |params| && w.addressOf(params[i].key) in registered
    ensures Lists(KeysOf(w, params, key), registered)
  {
    KeysAreShared(w, params, key);
    var keys, a := KeysOf(w, params, key), w.addressOf(params[i].key);
    assert Named(keys, Identity(a));
    var j :| 0 <= j < |keys| && keys[j].name == Identity(a);
    assert keys[j].name.Identity? && keys[j].name.address in registered;
  }

  // ---------- discovery in such a log ----------

  function Found(keyFound: bool, key: string): Discovery {
    Discovery(ENCRYPTED, if keyFound then Some(Params(AES256_GCM, key)) else None, Some(GCM_METHOD))
  }

  lemma DiscoverCreation(w: World, channelId: string, key: string, tx: Persisted, registered: set<string>)
    requires key != "" && IsCreation(w, channelId, key, tx)
    ensures DiscoverStep(w, Some(registered), UNDISCOVERED, tx) == Found(Lists(tx.keys.value, registered), key)
  {
    SearchFindsSharedKey(w, registered, tx.keys.value, key);
  }

  lemma DiscoverLater(w: World, channelId: string, key: string, tx: Persisted, registered: set<string>)
    requires key != "" && LaterShape(w, channelId, key, tx)
    ensures DiscoverStep(w, Some(registered), Found(false, key), tx)
         == Found(tx.keys.Some? && tx.encryptionMethod == None && Lists(tx.keys.value, registered), key)
  {
    if IsHonest(w, key, tx) && tx.keys.Some? {
      SearchFindsSharedKey(w, registered, tx.keys.value, key);
    }
  }

  lemma CanOpenSnoc(log: Log, registered: set<string>)
    requires log != []
    ensures CanOpen(log, registered)
      <==> CanOpen(log[..|log| - 1], registered) || SharesWith(log, |log| - 1, registered)
  {
    var rest := log[..|log| - 1];
    assert forall i: nat :: i < |rest| ==> log[i] == rest[i] && SharesWith(rest, i, registered) == SharesWith(log, i, registered);
    if CanOpen(log, registered) {
      var i: nat :| SharesWith(log, i, registered);
      assert i < |rest| ==> SharesWith(rest, i, registered);
    }
    if CanOpen(rest, registered) {
      var i: nat :| SharesWith(rest, i, registered);
      assert SharesWith(log, i, registered);
    }
  }

  lemma InvPrefix(w: World, channelId: string, key: string, log: Log)
    requires Inv(w, channelId, key, log) && |log| > 1
    ensures Inv(w, channelId, key, log[..|log| - 1])
    ensures LaterShape(w, channelId, key, log[|log| - 1].transaction)
  {
  }

  /** A reader with a provider always learns that the channel is encrypted, and finds its one key iff some entry shares it. */
  lemma {:induction false} DiscoveryFindsTheChannelKey(w: World, channelId: string, key: string, log: Log, registered: set<string>)
    requires Inv(w, channelId, key, log)
    ensures Discover(w, Some(registered), log) == Found(CanOpen(log, registered), key)
  {
    hide DiscoverStep;
    CanOpenSnoc(log, registered);
    var rest, tx := log[..|log| - 1], log[|log| - 1].transaction;
    if rest == [] {
      assert Discover(w, Some(registered), rest) == UNDISCOVERED;
      DiscoverCreation(w, channelId, key, tx, registered);
      assert !CanOpen(rest, registered);
    } else {
      InvPrefix(w, channelId, key, log);
      DiscoveryFindsTheChannelKey(w, channelId, key, rest, registered);
      if CanOpen(rest, registered) {
        SettledStays(w, Some(registered), Found(true, key), tx);
      } else {
        DiscoverLater(w, channelId, key, tx, registered);
      }
    }
  }

  lemma SettledStays(w: World, provider: Provider, d: Discovery, tx: Persisted)
    requires d.channelType == CLEAR || d.channelKey.Some?
    ensures DiscoverStep(w, provider, d, tx) == d
  {
  }

  /** Without a provider nothing is learnt, unless the creation data was written again in clear. */
  lemma {:induction false} DiscoveryWithoutProvider(w: World, channelId: string, key: string, log: Log)
    requires ValidWorld(w) && Inv(w, channelId, key, log)
    ensures Discover(w, None, log)
         == if NoClearEntry(w, log) then UNDISCOVERED else Discovery(CLEAR, None, None)
  {
    var rest, tx := log[..|log| - 1], log[|log| - 1].transaction;
    assert NoClearEntry(w, log) <==> NoClearEntry(w, rest) && !IsClearEntry(w, tx) by {
      assert forall i :: 0 <= i < |rest| ==> rest[i] == log[i];
    }
    if rest != [] {
      InvPrefix(w, channelId, key, log);
      DiscoveryWithoutProvider(w, channelId, key, rest);
    }
  }

  // ---------- what a run keeps ----------

  /** What a successful append adds to the log: an entry under the channel key, or a clear one when the type is mistaken. */
  lemma AppendShape(w: World, channelId: string, key: string, log: Log, op: Op)
    requires ValidWorld(w) && Inv(w, channelId, key, log) && !Recreates(w, channelId, op)
    requires Persist(w, op.writer, log, op.data, channelId, op.params, op.freshKey).Ok?
    ensures var tx := Persist(w, op.writer, log, op.data, channelId, op.params, op.freshKey).value.transaction;
      if op.writer.None? && !NoClearEntry(w, log) then tx == ClearPersisted(op.data) && IsClearEntry(w, tx)
      else op.writer.Some? && IsHonest(w, key, tx) && tx.encryptedData.value.plain == op.data
    ensures w.digest(op.data).Some?
  {
    if op.writer.Some? {
      DiscoveryFindsTheChannelKey(w, channelId, key, log, op.writer.value);
    } else {
      DiscoveryWithoutProvider(w, channelId, key, log);
    }
    KeysAreShared(w, op.params, key);
  }

  /** What writing the creation data again adds to the log: a clear entry, or one sealed under another key. */
  lemma RecreationShape(w: World, channelId: string, log: Log, op: Op)
    requires Recreates(w, channelId, op)
    requires Persist(w, op.writer, log, op.data, channelId, op.params, op.freshKey).Ok?
    ensures var tx := Persist(w, op.writer, log, op.data, channelId, op.params, op.freshKey).value.transaction;
      if op.params == [] then tx == ClearPersisted(op.data) && IsClearEntry(w, tx) else IsSealedRecreation(tx)
  {
  }

  /** One more entry, whatever it is. */
  lemma LogSnoc(w: World, channelId: string, log: Log, t: Timestamped)
    ensures HonestData(log + [t]) == HonestData(log) + (
      if (log == [] || (t.transaction.data == None && t.transaction.encryptionMethod == None))
        && t.transaction.encryptedData.Some? && t.transaction.encryptedData.value.Sealed?
      then [t.transaction.encryptedData.value.plain] else [])
    ensures LeakedData(w, channelId, log + [t]) == LeakedData(w, channelId, log) + (
      if IsClearEntry(w, t.transaction) && w.digest(t.transaction.data.value) != Some(channelId) then [t.transaction.data.value] else [])
    ensures NoClearEntry(w, log + [t]) <==> NoClearEntry(w, log) && !IsClearEntry(w, t.transaction)
  {
    var all := log + [t];
    assert all[..|log|] == log && all[|log|] == t;
    assert forall i :: 0 <= i < |log| ==> all[i] == log[i];
  }

  lemma InvSnoc(w: World, channelId: string, key: string, log: Log, t: Timestamped)
    requires Inv(w, channelId, key, log) && LaterShape(w, channelId, key, t.transaction)
    ensures Inv(w, channelId, key, log + [t])
  {
    hide LaterShape, IsCreation;
  }

  /** An entry sealed under the channel key. */
  lemma SealedEntry(w: World, channelId: string, key: string, log: Log, t: Timestamped)
    requires Inv(w, channelId, key, log) && IsHonest(w, key, t.transaction)
    ensures Inv(w, channelId, key, log + [t])
    ensures HonestData(log + [t]) == HonestData(log) + [t.transaction.encryptedData.value.plain]
    ensures LeakedData(w, channelId, log + [t]) == LeakedData(w, channelId, log)
    ensures NoClearEntry(w, log + [t]) <==> NoClearEntry(w, log)
  {
    hide IsHonest, HonestData, LeakedData, NoClearEntry, IsClearEntry, IsCreation;
    HonestShape(w, key, t.transaction);
    LogSnoc(w, channelId, log, t);
    InvSnoc(w, channelId, key, log, t);
  }

  /** An entry in clear, which leaks its data unless it is the creation data. */
  lemma ClearEntry(w: World, channelId: string, key: string, log: Log, t: Timestamped)
    requires Inv(w, channelId, key, log) && IsClearEntry(w, t.transaction)
    ensures Inv(w, channelId, key, log + [t]) && HonestData(log + [t]) == HonestData(log) && !NoClearEntry(w, log + [t])
    ensures LeakedData(w, channelId, log + [t]) == LeakedData(w, channelId, log) + (
      if w.digest(t.transaction.data.value) == Some(channelId) then [] else [t.transaction.data.value])
  {
    hide HonestData, LeakedData, NoClearEntry, IsCreation, IsHonest;
    LogSnoc(w, channelId, log, t);
    InvSnoc(w, channelId, key, log, t);
  }

  /** The creation data sealed again. */
  lemma ResealedEntry(w: World, channelId: string, key: string, log: Log, t: Timestamped)
    requires Inv(w, channelId, key, log) && IsSealedRecreation(t.transaction)
    ensures Inv(w, channelId, key, log + [t]) && HonestData(log + [t]) == HonestData(log)
    ensures LeakedData(w, channelId, log + [t]) == LeakedData(w, channelId, log)
    ensures NoClearEntry(w, log + [t]) <==> NoClearEntry(w, log)
  {
    hide HonestData, LeakedData, NoClearEntry, IsCreation, IsHonest;
    LogSnoc(w, channelId, log, t);
    InvSnoc(w, channelId, key, log, t);
  }

  /** The step adds one entry to the log or nothing. */
  lemma StepAddsOne(w: World, channelId: string, c: Channel, op: Op)
    ensures var after := Step(w, channelId, c, op);
      match Persist(w, op.writer, c.log, op.data, channelId, op.params, op.freshKey)
      case Err(_) => after == c
      case Ok(write) =>
        && after.log == c.log + [Timestamped(PENDING, op.now, write.transaction)]
        && after.log[..|c.log|] == c.log && |after.log| == |c.log| + 1
        && (c.log != [] ==> after.written == if Recreates(w, channelId, op) then c.written else c.written + [op.data])
  {
    hide Persist;
  }

  /** A write by anyone keeps the shape of the log. */
  lemma StepKeepsInv(w: World, channelId: string, key: string, c: Channel, op: Op)
    requires ValidWorld(w) && Inv(w, channelId, key, c.log)
    ensures var after := Step(w, channelId, c, op);
      && Inv(w, channelId, key, after.log)
      && |c.log| <= |after.log| <= |c.log| + 1 && after.log[..|c.log|] == c.log
      && (NoClearEntry(w, after.log) <==> NoClearEntry(w, c.log) && !(Recreates(w, channelId, op) && op.params == []))
      && (!Recreates(w, channelId, op) && |after.log| > |c.log| && NoClearEntry(w, c.log) ==>
            IsHonest(w, key, after.log[|c.log|].transaction))
  {
    hide IsHonest, IsCreation, Persist, HonestData, LeakedData, NoClearEntry, Step, Inv, IsClearEntry, IsSealedRecreation;
    StepAddsOne(w, channelId, c, op);
    var outcome := Persist(w, op.writer, c.log, op.data, channelId, op.params, op.freshKey);
    if outcome.Err? {
      ClearRecreationSucceeds(w, channelId, c.log, op);
    } else {
      var t := Timestamped(PENDING, op.now, outcome.value.transaction);
      if Recreates(w, channelId, op) {
        RecreationShape(w, channelId, c.log, op);
        if op.params == [] {
          ClearEntry(w, channelId, key, c.log, t);
        } else {
          ResealedEntry(w, channelId, key, c.log, t);
        }
      } else {
        AppendShape(w, channelId, key, c.log, op);
        if op.writer.Some? {
          SealedEntry(w, channelId, key, c.log, t);
        } else {
          ClearEntry(w, channelId, key, c.log, t);
        }
      }
    }
  }

  lemma OneMoreSealed(written: seq<string>, sealedData: seq<string>, leaked: seq<string>, d: string)
    requires multiset(written) == multiset(sealedData) + multiset(leaked)
    ensures multiset(written + [d]) == multiset(sealedData + [d]) + multiset(leaked)
    ensures multiset(written + [d]) == multiset(sealedData) + multiset(leaked + [d])
  {
  }

  /** A write by anyone accounts for its data: it is sealed, or it leaks, or it is the creation data again. */
  lemma StepAccounts(w: World, channelId: string, key: string, c: Channel, op: Op)
    requires ValidWorld(w) && Inv(w, channelId, key, c.log) && Accounted(w, channelId, c)
    ensures var after := Step(w, channelId, c, op);
      && Accounted(w, channelId, after)
      && (op.writer.Some? ==> LeakedData(w, channelId, after.log) == LeakedData(w, channelId, c.log))
  {
    hide IsHonest, IsCreation, Persist, HonestData, LeakedData, NoClearEntry, Step, IsSealedRecreation, LaterShape;
    StepAddsOne(w, channelId, c, op);
    var outcome := Persist(w, op.writer, c.log, op.data, channelId, op.params, op.freshKey);
    if outcome.Ok? {
      var t := Timestamped(PENDING, op.now, outcome.value.transaction);
      if Recreates(w, channelId, op) {
        RecreationShape(w, channelId, c.log, op);
        if op.params == [] {
          ClearEntry(w, channelId, key, c.log, t);
        } else {
          ResealedEntry(w, channelId, key, c.log, t);
        }
      } else {
        AppendShape(w, channelId, key, c.log, op);
        OneMoreSealed(c.written, HonestData(c.log), LeakedData(w, channelId, c.log), op.data);
        if op.writer.Some? {
          SealedEntry(w, channelId, key, c.log, t);
        } else {
          ClearEntry(w, channelId, key, c.log, t);
        }
      }
    }
  }

  lemma HonestShape(w: World, key: string, tx: Persisted)
    ensures IsHonest(w, key, tx) ==>
      && tx.data == None && tx.encryptionMethod == None && tx.encryptedData.Some? && tx.encryptedData.value.Sealed?
      && !IsClearEntry(w, tx)
  {
  }

  lemma ClearRecreationSucceeds(w: World, channelId: string, log: Log, op: Op)
    requires Persist(w, op.writer, log, op.data, channelId, op.params, op.freshKey).Err?
    ensures !(Recreates(w, channelId, op) && op.params == [])
  {
  }

  lemma CreationStartsTheRun(w: World, channelId: string, first: Op)
    requires ValidWorld(w) && CreatesEncrypted(w, channelId, first)
    ensures var c := Step(w, channelId, Channel([], []), first);
      && |c.log| == 1 && Inv(w, channelId, first.freshKey, c.log)
      && c.written == HonestData(c.log) == [first.data]
      && LeakedData(w, channelId, c.log) == [] && NoClearEntry(w, c.log)
      && c.log[0].transaction.keys == Some(KeysOf(w, first.params, first.freshKey))
  {
    KeysAreShared(w, first.params, first.freshKey);
    var c := Step(w, channelId, Channel([], []), first);
    assert c.log[..0] == [];
  }

  lemma RecreatesInClearSnoc(w: World, channelId: string, ops: seq<Op>)
    requires ops != []
    ensures var n := |ops| - 1;
      RecreatesInClear(w, channelId, ops) <==>
        RecreatesInClear(w, channelId, ops[..n]) || (Recreates(w, channelId, ops[n]) && ops[n].params == [])
  {
    var rest := ops[..|ops| - 1];
    assert forall i :: 0 <= i < |rest| ==> rest[i] == ops[i];
  }

  lemma {:induction false} RunKeepsShape(w: World, channelId: string, first: Op, ops: seq<Op>)
    requires ValidWorld(w) && CreatesEncrypted(w, channelId, first)
    ensures var c := RunFrom(w, channelId, first, ops);
      && Inv(w, channelId, first.freshKey, c.log)
      && (NoClearEntry(w, c.log) <==> !RecreatesInClear(w, channelId, ops))
  {
    if ops == [] {
      CreationStartsTheRun(w, channelId, first);
    } else {
      hide Step, Inv, NoClearEntry, CreatesEncrypted, RecreatesInClear;
      var rest := ops[..|ops| - 1];
      RunKeepsShape(w, channelId, first, rest);
      StepKeepsInv(w, channelId, first.freshKey, RunFrom(w, channelId, first, rest), ops[|ops| - 1]);
      RecreatesInClearSnoc(w, channelId, ops);
    }
  }

  lemma {:induction false} RunAccounts(w: World, channelId: string, first: Op, ops: seq<Op>)
    requires ValidWorld(w) && CreatesEncrypted(w, channelId, first)
    ensures var c := RunFrom(w, channelId, first, ops);
      && Accounted(w, channelId, c)
      && ((forall i :: 0 <= i < |ops| ==> ops[i].writer.Some?) ==> LeakedData(w, channelId, c.log) == [])
  {
    if ops == [] {
      CreationStartsTheRun(w, channelId, first);
    } else {
      hide Step, Inv, Accounted, LeakedData, CreatesEncrypted;
      var rest := ops[..|ops| - 1];
      RunKeepsShape(w, channelId, first, rest);
      RunAccounts(w, channelId, first, rest);
      StepAccounts(w, channelId, first.freshKey, RunFrom(w, channelId, first, rest), ops[|ops| - 1]);
    }
  }

  /**
   The invariant of every run, whoever writes and whatever is written. The log holds a
   clear entry iff somebody wrote the creation data again in clear, and nothing leaks
   in a safe run.
   */
  lemma RunKeepsInv(w: World, channelId: string, first: Op, ops: seq<Op>)
    requires ValidWorld(w) && CreatesEncrypted(w, channelId, first)
    ensures var c := RunFrom(w, channelId, first, ops);
      && Inv(w, channelId, first.freshKey, c.log) && Accounted(w, channelId, c)
      && (NoClearEntry(w, c.log) <==> !RecreatesInClear(w, channelId, ops))
      && (SafeOps(w, channelId, ops) ==> LeakedData(w, channelId, c.log) == [])
  {
    hide Inv, Accounted, NoClearEntry, CreatesEncrypted, RecreatesInClear, Run, Step;
    RunKeepsShape(w, channelId, first, ops);
    RunAccounts(w, channelId, first, ops);
    NoClearNoLeak(w, channelId, RunFrom(w, channelId, first, ops).log);
  }

  lemma {:induction false} NoClearNoLeak(w: World, channelId: string, log: Log)
    ensures NoClearEntry(w, log) ==> LeakedData(w, channelId, log) == []
  {
    if log != [] {
      NoClearNoLeak(w, channelId, log[..|log| - 1]);
    }
  }

  // ---------- reading such a log ----------

  /** The first entry, or an entry that is not the creation data written again. */
  predicate Meant(log: Log, i: nat) {
    i < |log| && (i == 0 || (log[i].transaction.data == None && log[i].transaction.encryptionMethod == None))
  }

  lemma JudgeMeant(w: World, provider: Provider, channelId: string, key: string, t: Timestamped, isFirst: bool)
    requires if isFirst then IsCreation(w, channelId, key, t.transaction) else IsHonest(w, key, t.transaction)
    ensures Judge(w, provider, channelId, Some(Params(AES256_GCM, key)), if isFirst then UNKNOWN else ENCRYPTED,
                  if isFirst then None else Some(GCM_METHOD), t)
         == (Accepted(AcceptedEntry(t, t.transaction.encryptedData.value.plain)), ENCRYPTED, Some(GCM_METHOD))
  {
  }

  lemma JudgeRecreation(w: World, provider: Provider, channelId: string, key: string, t: Timestamped)
    requires ValidWorld(w) && (IsClearEntry(w, t.transaction) || IsSealedRecreation(t.transaction))
    ensures var (v, c, m) := Judge(w, provider, channelId, Some(Params(AES256_GCM, key)), ENCRYPTED, Some(GCM_METHOD), t);
      v.Ignored? && c == ENCRYPTED && m == Some(GCM_METHOD)
  {
    assert t.transaction.data.Some? ==> t.transaction.data.value != "";
  }

  /** With the channel key, everything meant is accepted with its data and everything else is ignored. */
  lemma {:induction false} CleaningWithTheKey(w: World, provider: Provider, channelId: string, key: string, log: Log)
    requires ValidWorld(w) && Inv(w, channelId, key, log)
    ensures var c := CleanWith(w, provider, channelId, Some(Params(AES256_GCM, key)), log);
      && c.channelType == ENCRYPTED && c.encryptionMethod == Some(GCM_METHOD)
      && ReadsMeant(c.verdicts, log)
  {
    hide Judge;
    var rest, last := log[..|log| - 1], log[|log| - 1];
    var before := CleanWith(w, provider, channelId, Some(Params(AES256_GCM, key)), rest);
    if rest == [] {
      JudgeMeant(w, provider, channelId, key, last, true);
    } else {
      InvPrefix(w, channelId, key, log);
      CleaningWithTheKey(w, provider, channelId, key, rest);
      if IsHonest(w, key, last.transaction) {
        JudgeMeant(w, provider, channelId, key, last, false);
      } else {
        JudgeRecreation(w, provider, channelId, key, last);
      }
    }
  }

  /** The verdicts accept exactly what is meant, with the data that was sealed. */
  ghost predicate ReadsMeant(verdicts: seq<Verdict>, log: Log) {
    && |verdicts| == |log|
    && forall i: nat :: i < |log| ==> VerdictReads(verdicts[i], log[i], i == 0)
  }

  ghost predicate VerdictReads(v: Verdict, t: Timestamped, isFirst: bool) {
    if isFirst || (t.transaction.data == None && t.transaction.encryptionMethod == None) then
      && t.transaction.encryptedData.Some? && t.transaction.encryptedData.value.Sealed?
      && v == Accepted(AcceptedEntry(t, t.transaction.encryptedData.value.plain))
    else
      v.Ignored?
  }

  lemma {:induction false} MeantDataIsRead(verdicts: seq<Verdict>, log: Log)
    requires ReadsMeant(verdicts, log)
    ensures DataRead(verdicts) == HonestData(log)
  {
    if log != [] {
      var n := |log| - 1;
      assert forall i: nat :: i < n ==> verdicts[..n][i] == verdicts[i] && log[..n][i] == log[i];
      MeantDataIsRead(verdicts[..n], log[..n]);
      assert VerdictReads(verdicts[n], log[n], n == 0);
    }
  }

  // ---------- the main results ----------

  /**
   Round trip over all runs. After an encrypted creation and any operations by any
   writers, a reader that holds one address listed by ANY meant entry of the final
   log reads back, in order, all the data ever sealed, including what was sealed
   before the reader was added. That is all the data ever written iff no append
   leaked, as in every safe run. What is accepted is exactly what is meant; when the
   creation data is persisted once everything is.
   */
  lemma EveryStakeholderReadsEverything(w: World, channelId: string, first: Op, ops: seq<Op>, reader: set<string>)
    requires ValidWorld(w) && CreatesEncrypted(w, channelId, first)
    requires CanOpen(RunFrom(w, channelId, first, ops).log, reader)
    ensures var end := RunFrom(w, channelId, first, ops);
      var cleaned := Clean(w, Some(reader), channelId, end.log);
      && DataRead(cleaned.verdicts) == HonestData(end.log)
      && (DataRead(cleaned.verdicts) == end.written <==> LeakedData(w, channelId, end.log) == [])
      && (SafeOps(w, channelId, ops) ==> DataRead(cleaned.verdicts) == end.written)
      && cleaned.encryptionMethod == Some(GCM_METHOD)
      && |cleaned.verdicts| == |end.log|
      && (forall i: nat :: i < |end.log| ==> (cleaned.verdicts[i].Accepted? <==> Meant(end.log, i)))
      && (NoRecreation(w, channelId, ops) ==> forall i: nat :: i < |end.log| ==> cleaned.verdicts[i].Accepted?)
  {
    hide Judge, DiscoverStep, ParsePersisted, Step, Persist, KeysOf, HonestData, LeakedData;
    var end := RunFrom(w, channelId, first, ops);
    RunKeepsInv(w, channelId, first, ops);
    DiscoveryFindsTheChannelKey(w, channelId, first.freshKey, end.log, reader);
    CleaningWithTheKey(w, Some(reader), channelId, first.freshKey, end.log);
    var verdicts := Clean(w, Some(reader), channelId, end.log).verdicts;
    MeantDataIsRead(verdicts, end.log);
    assert forall i: nat :: i < |end.log| ==> VerdictReads(verdicts[i], end.log[i], i == 0);
    LeakIsMissing(HonestData(end.log), LeakedData(w, channelId, end.log), end.written);
    if NoRecreation(w, channelId, ops) {
      EveryEntryIsUnderTheCreationKey(w, channelId, first, ops);
    }
  }

  lemma LeakIsMissing(sealedData: seq<string>, leaked: seq<string>, written: seq<string>)
    requires multiset(written) == multiset(sealedData) + multiset(leaked)
    ensures written == sealedData ==> leaked == []
  {
    assert |multiset(written)| == |written| && |multiset(sealedData)| == |sealedData| && |multiset(leaked)| == |leaked|;
  }

  /**
   Run invariant. When the creation data is persisted once, the first entry is the
   only one with an encryption method and every later entry is sealed under the
   creation key, shares no other key, and carries no clear data.
   */
  lemma {:induction false} EveryEntryIsUnderTheCreationKey(w: World, channelId: string, first: Op, ops: seq<Op>)
    requires ValidWorld(w) && CreatesEncrypted(w, channelId, first) && NoRecreation(w, channelId, ops)
    ensures var end := RunFrom(w, channelId, first, ops);
      && Inv(w, channelId, first.freshKey, end.log)
      && NoClearEntry(w, end.log)
      && forall i: nat :: 1 <= i < |end.log| ==> IsHonest(w, first.freshKey, end.log[i].transaction) && Meant(end.log, i)
  {
    if ops == [] {
      CreationStartsTheRun(w, channelId, first);
    } else {
      hide Step, Accounted, HonestData, LeakedData, NoClearEntry, Inv, IsHonest, CreatesEncrypted;
      var rest, last := ops[..|ops| - 1], ops[|ops| - 1];
      EveryEntryIsUnderTheCreationKey(w, channelId, first, rest);
      var before, after := RunFrom(w, channelId, first, rest), RunFrom(w, channelId, first, ops);
      StepKeepsInv(w, channelId, first.freshKey, before, last);
      assert forall i: nat :: i < |before.log| ==> after.log[i] == before.log[i];
      forall i: nat | 1 <= i < |after.log| ensures IsHonest(w, first.freshKey, after.log[i].transaction) && Meant(after.log, i) {
        HonestShape(w, first.freshKey, after.log[i].transaction);
      }
    }
  }

  /** A log only grows along a run. */
  lemma {:induction false} RunOnlyAppends(w: World, channelId: string, c: Channel, ops: seq<Op>)
    ensures var end := Run(w, channelId, c, ops);
      && |c.log| <= |end.log| && end.log[..|c.log|] == c.log
      && |c.written| <= |end.written| && end.written[..|c.written|] == c.written
  {
    if ops != [] {
      RunOnlyAppends(w, channelId, c, ops[..|ops| - 1]);
    }
  }

  lemma {:induction false} RunConcat(w: World, channelId: string, c: Channel, ops: seq<Op>, more: seq<Op>)
    ensures Run(w, channelId, c, ops + more) == Run(w, channelId, Run(w, channelId, c, ops), more)
  {
    if more == [] {
      assert ops + more == ops;
    } else {
      RunConcat(w, channelId, c, ops, more[..|more| - 1]);
      assert (ops + more)[..|ops + more| - 1] == ops + more[..|more| - 1];
    }
  }

  lemma RunOne(w: World, channelId: string, c: Channel, op: Op)
    ensures Run(w, channelId, c, [op]) == Step(w, channelId, c, op)
  {
    hide Step;
    assert [op][..0] == [];
  }

  /** A run around one operation, and what it leaves in place. */
  lemma RunAround(w: World, channelId: string, start: Channel, before: seq<Op>, op: Op, after: seq<Op>)
    ensures var c := Run(w, channelId, start, before);
      var added, end := Step(w, channelId, c, op), Run(w, channelId, start, before + [op] + after);
      && |start.written| <= |end.written| && end.written[..|start.written|] == start.written
      && |added.written| <= |end.written| && end.written[..|added.written|] == added.written
      && |added.log| <= |end.log| && end.log[..|added.log|] == added.log
  {
    hide Step;
    RunConcat(w, channelId, start, before, [op]);
    RunOne(w, channelId, Run(w, channelId, start, before), op);
    RunConcat(w, channelId, start, before + [op], after);
    RunOnlyAppends(w, channelId, Step(w, channelId, Run(w, channelId, start, before), op), after);
    RunOnlyAppends(w, channelId, start, before + [op] + after);
  }

  /** A sealed append by anyone shares the channel key with the stakeholders it names. */
  lemma AppendSharesTheKey(w: World, channelId: string, key: string, c: Channel, op: Op, i: nat)
    requires ValidWorld(w) && Inv(w, channelId, key, c.log)
    requires !Recreates(w, channelId, op) && i < |op.params| && op.writer.Some?
    requires Persist(w, op.writer, c.log, op.data, channelId, op.params, op.freshKey).Ok?
    ensures var after := Step(w, channelId, c, op);
      && |after.log| == |c.log| + 1 && HonestData(after.log) == HonestData(c.log) + [op.data]
      && SharesWith(after.log, |c.log|, {w.addressOf(op.params[i].key)})
  {
    DiscoveryFindsTheChannelKey(w, channelId, key, c.log, op.writer.value);
    StakeholderIsListed(w, op.params, key, i, {w.addressOf(op.params[i].key)});
    var after := Step(w, channelId, c, op);
    assert after.log[..|c.log|] == c.log;
  }

  lemma {:induction false} HonestDataGrows(log: Log, n: nat)
    requires n <= |log|
    ensures |HonestData(log[..n])| <= |HonestData(log)| && HonestData(log)[..|HonestData(log[..n])|] == HonestData(log[..n])
  {
    if n == |log| {
      assert log[..n] == log;
    } else {
      HonestDataGrows(log[..|log| - 1], n);
      assert log[..|log| - 1][..n] == log[..n];
    }
  }

  /**
   A stakeholder added by ANY sealed append, even the last one, reads the whole
   channel: what was sealed before, by the append itself, and after it. An append by a
   writer with a provider is always sealed.
   */
  lemma AddedStakeholderReadsEverything(w: World, channelId: string, first: Op, before: seq<Op>, add: Op, after: seq<Op>, i: nat)
    requires ValidWorld(w) && CreatesEncrypted(w, channelId, first)
    requires !Recreates(w, channelId, add) && i < |add.params|
    requires var c := RunFrom(w, channelId, first, before);
      var outcome := Persist(w, add.writer, c.log, add.data, channelId, add.params, add.freshKey);
      outcome.Ok? && outcome.value.transaction.data == None
    ensures var end := RunFrom(w, channelId, first, before + [add] + after);
      var read := DataRead(Clean(w, Some({w.addressOf(add.params[i].key)}), channelId, end.log).verdicts);
      && read == HonestData(end.log)
      && (read == end.written <==> LeakedData(w, channelId, end.log) == [])
      && add.data in read && first.data in read
  {
    hide Step, Persist, Clean, HonestData, LeakedData, Inv;
    var start := Step(w, channelId, Channel([], []), first);
    var c, end := RunFrom(w, channelId, first, before), RunFrom(w, channelId, first, before + [add] + after);
    var reader, n := {w.addressOf(add.params[i].key)}, |c.log|;
    RunKeepsInv(w, channelId, first, before);
    AppendShape(w, channelId, first.freshKey, c.log, add);
    AppendSharesTheKey(w, channelId, first.freshKey, c, add, i);
    RunAround(w, channelId, start, before, add, after);
    CreationStartsTheRun(w, channelId, first);
    var added := Step(w, channelId, c, add);
    assert end.log[n] == end.log[..|added.log|][n];
    assert SharesWith(end.log, n, reader);
    EveryStakeholderReadsEverything(w, channelId, first, before + [add] + after, reader);
    HonestDataGrows(end.log, |added.log|);
    HonestDataGrows(end.log, 1);
    RunOnlyAppends(w, channelId, start, before + [add] + after);
    assert end.log[..1] == start.log;
    var data := HonestData(end.log);
    assert data[0] == data[..1][0];
    assert data[|HonestData(c.log)|] == data[..|HonestData(added.log)|][|HonestData(c.log)|];
  }

  /** A stakeholder of the creation reads the whole channel. */
  lemma FirstStakeholderReadsEverything(w: World, channelId: string, first: Op, ops: seq<Op>, i: nat)
    requires ValidWorld(w) && CreatesEncrypted(w, channelId, first) && i < |first.params|
    ensures var end := RunFrom(w, channelId, first, ops);
      var read := DataRead(Clean(w, Some({w.addressOf(first.params[i].key)}), channelId, end.log).verdicts);
      && read == HonestData(end.log)
      && (read == end.written <==> LeakedData(w, channelId, end.log) == [])
  {
    hide Clean, HonestData, LeakedData, Persist;
    var start, end := Step(w, channelId, Channel([], []), first), RunFrom(w, channelId, first, ops);
    CreationStartsTheRun(w, channelId, first);
    RunOnlyAppends(w, channelId, start, ops);
    assert end.log[0] == end.log[..1][0];
    StakeholderIsListed(w, first.params, first.freshKey, i, {w.addressOf(first.params[i].key)});
    assert SharesWith(end.log, 0, {w.addressOf(first.params[i].key)});
    EveryStakeholderReadsEverything(w, channelId, first, ops, {w.addressOf(first.params[i].key)});
  }

  /**
   Who can write, in every run. A writer with a provider appends JSON data iff some
   entry shares the channel key with it and all the parameters are ECIES keys, and then
   seals it under that key; otherwise it throws. A writer without a provider always
   throws, until the creation data is written again in clear.
   */
  lemma WriterNeedsTheKey(w: World, channelId: string, first: Op, ops: seq<Op>, op: Op)
    requires ValidWorld(w) && CreatesEncrypted(w, channelId, first)
    requires !Recreates(w, channelId, op) && w.digest(op.data).Some?
    ensures var log := RunFrom(w, channelId, first, ops).log;
      var outcome := Persist(w, op.writer, log, op.data, channelId, op.params, op.freshKey);
      match op.writer
      case Some(registered) =>
        if !CanOpen(log, registered) then outcome == Err(ChannelKeyNotFound)
        else if exists i :: 0 <= i < |op.params| && op.params[i].algorithm != ECIES then outcome == Err(ParamsMustBeEcies)
        else outcome.Ok? && IsHonest(w, first.freshKey, outcome.value.transaction)
      case None =>
        if RecreatesInClear(w, channelId, ops) then outcome.Ok? && outcome.value.transaction == ClearPersisted(op.data)
        else outcome == Err(ChannelNotFound)
  {
    hide Persist, Inv, RunFrom, NoClearEntry, CreatesEncrypted, IsHonest, CanOpen, Accounted, SafeOps, RecreatesInClear;
    RunKeepsInv(w, channelId, first, ops);
    AppendOutcome(w, channelId, first.freshKey, RunFrom(w, channelId, first, ops).log, op);
  }

  /** The outcome of writing JSON data to a log of that shape. */
  lemma AppendOutcome(w: World, channelId: string, key: string, log: Log, op: Op)
    requires ValidWorld(w) && Inv(w, channelId, key, log)
    requires !Recreates(w, channelId, op) && w.digest(op.data).Some?
    ensures var outcome := Persist(w, op.writer, log, op.data, channelId, op.params, op.freshKey);
      match op.writer
      case Some(registered) =>
        if !CanOpen(log, registered) then outcome == Err(ChannelKeyNotFound)
        else if exists i :: 0 <= i < |op.params| && op.params[i].algorithm != ECIES then outcome == Err(ParamsMustBeEcies)
        else outcome.Ok? && IsHonest(w, key, outcome.value.transaction)
      case None =>
        if NoClearEntry(w, log) then outcome == Err(ChannelNotFound)
        else outcome.Ok? && outcome.value.transaction == ClearPersisted(op.data)
  {
    hide Inv, NoClearEntry, CanOpen, Discover;
    if op.writer.Some? {
      DiscoveryFindsTheChannelKey(w, channelId, key, log, op.writer.value);
      KeysAreShared(w, op.params, key);
    } else {
      DiscoveryWithoutProvider(w, channelId, key, log);
    }
  }

  // ---------- who cannot read ----------

  /** The reader has no key for any entry. */
  predicate Outsider(reader: Provider, keys: Keys) {
    reader.None? || forall i :: 0 <= i < |keys| && keys[i].name.Identity? ==> keys[i].name.address !in reader.value
  }

  lemma JudgeOutsider(w: World, reader: Provider, channelId: string, key: string, t: Timestamped, isFirst: bool)
    requires key != "" && (if isFirst then IsCreation(w, channelId, key, t.transaction) else IsHonest(w, key, t.transaction))
    requires isFirst ==> Outsider(reader, t.transaction.keys.value)
    ensures var (v, c, m) := Judge(w, reader, channelId, None, UNKNOWN, None, t); v.Ignored? && c == UNKNOWN && m == None
  {
    if isFirst && reader.Some? {
      SearchFindsSharedKey(w, reader.value, t.transaction.keys.value, key);
    }
  }

  lemma {:induction false} OutsiderCleans(w: World, reader: Provider, channelId: string, key: string, log: Log)
    requires key != "" && log != [] && IsCreation(w, channelId, key, log[0].transaction)
    requires forall i :: 1 <= i < |log| ==> IsHonest(w, key, log[i].transaction)
    requires Outsider(reader, log[0].transaction.keys.value)
    ensures var c := CleanWith(w, reader, channelId, None, log);
      && c.channelType == UNKNOWN && c.encryptionMethod == None && |c.verdicts| == |log|
      && forall i :: 0 <= i < |log| ==> c.verdicts[i].Ignored?
  {
    hide Judge, IsCreation, IsHonest, Outsider;
    var rest, last := log[..|log| - 1], log[|log| - 1];
    if rest == [] {
      assert CleanWith(w, reader, channelId, None, rest) == Cleaning(UNKNOWN, None, []);
      JudgeOutsider(w, reader, channelId, key, last, true);
    } else {
      OutsiderCleans(w, reader, channelId, key, rest);
      JudgeOutsider(w, reader, channelId, key, last, false);
    }
  }

  /**
   Secrecy over all runs in which the creation data is persisted once: a reader that no
   entry of the log lists, or that has no provider, reads nothing at all.
   */
  lemma OutsiderReadsNothing(w: World, channelId: string, first: Op, ops: seq<Op>, reader: Provider)
    requires ValidWorld(w) && CreatesEncrypted(w, channelId, first) && NoRecreation(w, channelId, ops)
    requires var log := RunFrom(w, channelId, first, ops).log;
      forall i :: 0 <= i < |log| && log[i].transaction.keys.Some? ==> Outsider(reader, log[i].transaction.keys.value)
    ensures var log := RunFrom(w, channelId, first, ops).log;
      var verdicts := Clean(w, reader, channelId, log).verdicts;
      |verdicts| == |log| && (forall i :: 0 <= i < |log| ==> verdicts[i].Ignored?) && DataRead(verdicts) == []
  {
    hide RunFrom, CreatesEncrypted, IsHonest, IsCreation, Discover, CleanWith, NoClearEntry;
    var log := RunFrom(w, channelId, first, ops).log;
    EveryEntryIsUnderTheCreationKey(w, channelId, first, ops);
    CreationHasKeys(w, channelId, first.freshKey, log[0].transaction);
    if reader.Some? {
      DiscoveryFindsTheChannelKey(w, channelId, first.freshKey, log, reader.value);
      assert !CanOpen(log, reader.value);
    } else {
      DiscoveryWithoutProvider(w, channelId, first.freshKey, log);
    }
    OutsiderCleans(w, reader, channelId, first.freshKey, log);
    NothingAccepted(Clean(w, reader, channelId, log).verdicts);
  }

  lemma CreationHasKeys(w: World, channelId: string, key: string, tx: Persisted)
    requires IsCreation(w, channelId, key, tx)
    ensures tx.keys.Some?
  {
  }

  lemma {:induction false} NothingAccepted(verdicts: seq<Verdict>)
    requires forall i :: 0 <= i < |verdicts| ==> verdicts[i].Ignored?
    ensures DataRead(verdicts) == []
  {
    if verdicts != [] {
      NothingAccepted(verdicts[..|verdicts| - 1]);
    }
  }

  /**
   When an append leaks, in every run of a channel created encrypted: it writes its
   data in clear iff the writer has no decryption provider and the creation data was
   written again in clear before.
   */
  lemma AppendInClearIff(w: World, channelId: string, first: Op, ops: seq<Op>, op: Op)
    requires ValidWorld(w) && CreatesEncrypted(w, channelId, first) && !Recreates(w, channelId, op)
    ensures var log := RunFrom(w, channelId, first, ops).log;
      var outcome := Persist(w, op.writer, log, op.data, channelId, op.params, op.freshKey);
      (outcome.Ok? && Present(outcome.value.transaction.data))
        <==> (op.writer.None? && w.digest(op.data).Some? && RecreatesInClear(w, channelId, ops))
  {
    hide Inv, RunFrom, NoClearEntry, CreatesEncrypted, CanOpen, Accounted, SafeOps, RecreatesInClear, Discover;
    var log := RunFrom(w, channelId, first, ops).log;
    RunKeepsInv(w, channelId, first, ops);
    if op.writer.Some? {
      DiscoveryFindsTheChannelKey(w, channelId, first.freshKey, log, op.writer.value);
    } else {
      DiscoveryWithoutProvider(w, channelId, first.freshKey, log);
      assert w.digest(op.data).Some? ==> op.data != "";
    }
  }

  /** The smallest run that leaks: create sealed, create again in clear, append without a provider. */
  lemma RecreationLeak(w: World, channelId: string, first: Op, again: Op, append: Op)
    requires ValidWorld(w) && CreatesEncrypted(w, channelId, first)
    requires Recreates(w, channelId, again) && again.params == []
    requires !Recreates(w, channelId, append) && w.digest(append.data).Some? && append.writer.None?
    requires AllEcies(append.params)
    ensures var end := RunFrom(w, channelId, first, [again, append]);
      && LeakedData(w, channelId, end.log) == [append.data] && HonestData(end.log) == [first.data]
      && end.written == [first.data, append.data]
  {
    hide Persist, HonestData, LeakedData, NoClearEntry, Inv, Accounted, IsClearEntry, Step;
    var start := Step(w, channelId, Channel([], []), first);
    var middle := Step(w, channelId, start, again);
    var end := Step(w, channelId, middle, append);
    assert [again][..0] == [] && [again, append][..1] == [again];
    RunOne(w, channelId, start, again);
    CreationStartsTheRun(w, channelId, first);
    ClearAgain(w, channelId, first.freshKey, start, again);
    WriterOutcome(w, channelId, first, again, append);
    LeakOne(w, channelId, first.freshKey, middle, append);
    assert RunFrom(w, channelId, first, [again, append]) == end;
    assert [first.data] + [append.data] == [first.data, append.data] && [] + [append.data] == [append.data];
  }

  /** The creation data written again in clear adds a clear entry and no data. */
  lemma ClearAgain(w: World, channelId: string, key: string, c: Channel, again: Op)
    requires Inv(w, channelId, key, c.log) && Recreates(w, channelId, again) && again.params == []
    ensures var after := Step(w, channelId, c, again);
      && Inv(w, channelId, key, after.log) && after.written == c.written && HonestData(after.log) == HonestData(c.log)
      && LeakedData(w, channelId, after.log) == LeakedData(w, channelId, c.log)
  {
    hide HonestData, LeakedData, NoClearEntry, IsHonest, IsCreation;
    StepAddsOne(w, channelId, c, again);
    var t := Timestamped(PENDING, again.now, ClearPersisted(again.data));
    ClearEntry(w, channelId, key, c.log, t);
  }

  lemma WriterOutcome(w: World, channelId: string, first: Op, again: Op, append: Op)
    requires ValidWorld(w) && CreatesEncrypted(w, channelId, first)
    requires Recreates(w, channelId, again) && again.params == []
    requires !Recreates(w, channelId, append) && w.digest(append.data).Some? && append.writer.None? && AllEcies(append.params)
    ensures var c := Step(w, channelId, Step(w, channelId, Channel([], []), first), again);
      var outcome := Persist(w, None, c.log, append.data, channelId, append.params, append.freshKey);
      outcome.Ok? && outcome.value.transaction == ClearPersisted(append.data)
  {
    hide Persist, Step, CreatesEncrypted;
    RunOne(w, channelId, Step(w, channelId, Channel([], []), first), again);
    assert [again][0] == again && RecreatesInClear(w, channelId, [again]);
    WriterNeedsTheKey(w, channelId, first, [again], append);
  }

  /** An append written in clear adds leaked data only. */
  lemma LeakOne(w: World, channelId: string, key: string, c: Channel, append: Op)
    requires Inv(w, channelId, key, c.log) && !Recreates(w, channelId, append) && w.digest(append.data).Some?
    requires var outcome := Persist(w, append.writer, c.log, append.data, channelId, append.params, append.freshKey);
      outcome.Ok? && outcome.value.transaction == ClearPersisted(append.data)
    ensures var after := Step(w, channelId, c, append);
      && after.written == c.written + [append.data] && HonestData(after.log) == HonestData(c.log)
      && LeakedData(w, channelId, after.log) == LeakedData(w, channelId, c.log) + [append.data]
  {
    hide Persist, HonestData, LeakedData, NoClearEntry, IsHonest, IsCreation;
    StepAddsOne(w, channelId, c, append);
    ClearEntry(w, channelId, key, c.log, Timestamped(PENDING, append.now, ClearPersisted(append.data)));
  }
}
