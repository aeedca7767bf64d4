# Verification of the Request Network transaction log

A Dafny model of the layered transaction log of Request Network, with proofs about every run and every input.

- **Channels** (`TransactionTypes`, `Transaction`, `TransactionsParser`, `ChannelParser`, `TransactionManager`, `ChannelLaws`,
  `ParserLaws`, `IgnoredReasons`, `DiscoveryLaws`, `AppendLaws`, `ChannelRuns`, `ClearChannelRuns`). A channel is an
  append-only log; every reader rediscovers its type, its key and its encryption method from the log alone. Encryption is
  ideal: a ciphertext is opened by its own method and key and by nothing else. Hashing data and deriving an address are
  uninterpreted functions; the only fact used about them is that the empty string is not JSON.
- **Interpretation of requests** (`RequestLogic`, `RequestLaws`, `RequestSteps`, `RequestCore`, `RequestCoreLaws`,
  `RequestAcceptance`, `PendingDifference`, `Normalize`, `NormalizeLaws`). Confirmed and pending transactions become a
  confirmed state, a pending state and an ignored list. Action handlers and extensions are arbitrary functions that may
  throw; the few results that ask something of them name it.
- **Storage** (`Block`, `BlockForms`, `BlockOrder`, `DataAccess`, `DataAccessRuns`, `DataAccessReads`). What a read returns
  from the index, the pending store and the storage, and when it agrees with the list of what was persisted. Storage ids are
  any function of the documents: the storage hashes a lower-cased text, so different documents can have one id.
- **Kernels**: `SuperfluidRetriever` and `SuperfluidDetector` (streams), `BitcoinQuorum` (provider loop),
  `ChainlinkAggregators` (log windows), `MetaDetector`, `EventTotals` and `MetaDetectorLaws` (aggregated balances), `MultiFormat`
  (prefixed strings). `Text`, `Sequences` and `Wrappers` hold the string order, facts about sequences, and the option and result types.

Code that updates objects, arrays or accumulators is modelled by classes and loops, each proved equal to a function on
values; the lemmas are about those functions. Promises are sequential steps, and each await is atomic, except in
`DataAccessRuns.ConfirmationBetweenAwaits`, which shows what the atomicity is needed for. Clocks and generated keys are
parameters.

Where the code does less than its documentation says, the lemma states exactly when it does meet it:

- in a channel created encrypted, an append is written in clear iff the writer has no decryption provider and somebody wrote
  the creation data again in clear before; every listed reader reads exactly the sealed data, which is all data written iff no
  append leaked (`ChannelRuns.AppendInClearIff`, `ChannelRuns.EveryStakeholderReadsEverything`);
- a writer reads back what it appends to any log iff the first entry that it accepts there is of the kind of what it wrote; a
  clear entry before the sealed creation breaks this (`AppendLaws.AppendIsReadBackIff`, `AppendLaws.ClearEntryBeforeCreationMisleads`);
- an extension creation meets an id that does not exist yet iff no earlier extension action of the same action created it
  (`RequestCoreLaws.CreationIsFreshIff`);
- values that differ only in key order and letter case hash alike iff every two keys of one are in the same order as their
  counterparts in the other, when no two keys of an object are equal in lower case (`NormalizeLaws.HashedAlikeIff`);
- a printed block parses iff every push was well formed, which pushing does not check (`Block.ParsePrintedIff`);
- the positions of a query are in the order of the block iff their texts are, and those of a whole block iff it holds at most
  ten transactions (`BlockOrder.PositionOrderIff`, `BlockOrder.WholeBlockInOrderIff`);
- a read agrees with the log iff the document stored last under the id of every confirmed entry of the channel reads as its
  own, and the pending store still has the latest entry while it is not confirmed; documents that differ in letter case only
  break this (`DataAccessRuns.ReadAgreesIff`, `DataAccessRuns.LetterCaseLosesATransaction`);
- a channel is read as a whole iff every transaction but its latest is confirmed (`DataAccessReads.WholeChannelIsReadIff`);
- a read returns a location twice iff two entries of the channel have one id with a confirmed document of the channel
  (`DataAccessRuns.LocationIsReadTwiceIff`) or, when it is not atomic, its pending transaction is confirmed between the two
  awaits (`DataAccessRuns.ConfirmationBetweenAwaits`);
- stream amounts reach the time integral iff every event that lasts starts from nothing or leaves nothing, on any base flow and
  as long as no event takes back more than was added, where an END stops all the flow of its sender (`SuperfluidRetriever.AmountsFallShortIff`);
- the written fee total is that of the current fees iff the fees left by an earlier call in networks that write none now sum
  to zero (`MetaDetectorLaws.FeeTotalCountsStaleFees`);
- a string that is only a prefix is deserialized but not serialized again (`MultiFormat.DeserializeThenSerialize`).

## Model

| member | source | states |
|---|---|---|
| ChannelRuns.EveryStakeholderReadsEverything | packages/transaction-manager/src/channel-parser.ts:21-230 | Round trip over all runs: a reader listed by any meant entry, even the last, reads back exactly the sealed data, in order, which is all data ever written iff no append leaked, as in every safe run; only clear entries and the creation data written again are ignored |
| ChannelRuns.AddedStakeholderReadsEverything | packages/transaction-manager/src/transactions-factory.ts:121-197 | A stakeholder added by any sealed append reads what was sealed before, by and after that append, in every run |
| ChannelRuns.FirstStakeholderReadsEverything | packages/transaction-manager/src/transactions-factory.ts:38-110 | A stakeholder of the creation reads the whole channel after any run |
| ChannelRuns.RunKeepsInv | packages/transaction-manager/src/transaction-manager.ts:40-105 | Every run keeps the log in shape, whoever writes: a creation under one key, then entries sealed under that key, clear ones and resealed creations; the data written is what is sealed and what leaked, and there is a clear entry iff the creation data was written again in clear |
| ChannelRuns.EveryEntryIsUnderTheCreationKey | packages/transaction-manager/src/transaction-manager.ts:67-98 | With the creation data persisted once, every later entry is sealed under the creation key, has no encryption method and no clear data |
| ChannelRuns.WriterNeedsTheKey | packages/transaction-manager/src/transaction-manager.ts:67-98 | In every run, a writer with a provider appends iff some entry shares the key with it and all its parameters are ECIES keys, and otherwise throws instead of writing; a writer without provider throws until the creation data is written again in clear |
| ChannelRuns.AppendInClearIff | packages/transaction-manager/src/transaction-manager.ts:67-80 | After every run of a channel created encrypted, an append carries clear data iff the writer has no provider and the creation data was written again in clear |
| ChannelRuns.RecreationLeak | packages/transaction-manager/src/transaction-manager.ts:51-80 | The smallest run that leaks: create sealed, create again in clear, append without a provider |
| ChannelRuns.DiscoveryFindsTheChannelKey | packages/transaction-manager/src/channel-parser.ts:145-230 | In any such log, a reader with a provider learns that the channel is encrypted, and finds its one key iff an entry shares it |
| ChannelRuns.DiscoveryWithoutProvider | packages/transaction-manager/src/channel-parser.ts:145-230 | Without a provider nothing is learnt, except a wrong clear type after a clear re-creation |
| ChannelRuns.KeysAreShared | packages/transaction-manager/src/transactions-factory.ts:71-105 | The keys dictionary shares the channel key with every stakeholder and nobody else, repeated stakeholders included |
| ChannelRuns.OutsiderReadsNothing | packages/transaction-manager/src/channel-parser.ts:21-230 | Secrecy over all runs with the creation data persisted once: a reader that no entry lists, or without a provider, reads nothing |
| ClearChannelRuns.EveryoneReadsAClearChannel | packages/transaction-manager/src/channel-parser.ts:21-136 | Round trip over all runs of a channel created in clear: every reader reads back all JSON data that anyone wrote, in order, without an encryption method; only the creation data sealed again is ignored |
| ClearChannelRuns.EveryoneWritesToAClearChannel | packages/transaction-manager/src/transaction-manager.ts:67-98 | After every such run, JSON data of any writer, with or without a provider and with any parameters, is appended in clear, and no method is reported |
| ClearChannelRuns.WriterIsToldTheMethod | packages/transaction-manager/src/transaction-manager.ts:51-105 | After every run of either kind, a writer is told the encryption method iff its data was sealed, and none when it is in clear |
| ClearChannelRuns.CreationTakesEciesKeys | packages/transaction-manager/src/transactions-factory.ts:38-110 | A creation succeeds iff all its parameters are ECIES keys, on any log |
| ChannelLaws.AcceptedEntriesAreHomogeneous | packages/transaction-manager/src/channel-parser.ts:40-122 | For any log, the first accepted entry hashes to the channel id and every accepted entry is of its kind, with JSON data |
| ChannelLaws.VerdictBeforeFirst | packages/transaction-manager/src/channel-parser.ts:40-122 | Before the first accepted entry a verdict depends on that entry alone |
| ChannelLaws.VerdictAfterFirst | packages/transaction-manager/src/channel-parser.ts:40-122 | After it a verdict depends only on the entry judged and on the first accepted one |
| ChannelLaws.VerdictsAfterOpenableCreation | packages/transaction-manager/src/channel-parser.ts:21-230 | When the log starts with a creation the reader opens, every verdict is fixed by the creation and the entry judged |
| ChannelLaws.NoiseDoesNotInterfere | packages/transaction-manager/src/channel-parser.ts:21-230 | Inserting any entries after an openable creation changes no other verdict |
| ChannelLaws.CleaningIsIdempotent | packages/transaction-manager/src/channel-parser.ts:40-135 | The accepted data of any log, written again in clear, is accepted in full and unchanged by every reader |
| ChannelLaws.ListsAlign | packages/transaction-manager/src/channel-parser.ts:124-135 | Accepted and ignored lists align with the log, and exactly one of them is null at each position |
| ParserLaws.SearchFindsFirstKey | packages/transaction-manager/src/transactions-parser.ts:146-187 | For any dictionary, the search gives the key of the first entry that seals one for an identity of the reader, and none iff no entry does |
| ParserLaws.ParsesIff | packages/transaction-manager/src/transactions-parser.ts:31-114 | A transaction gives a reader some data iff it carries it in the open and nothing else, where that is allowed, or sealed with the known key or the first of its own dictionary, under a method named exactly once |
| ParserLaws.FirstEntryIsAcceptedIff | packages/transaction-manager/src/channel-parser.ts:52-122 | In any log, while nothing is accepted, an entry is accepted iff its data hashes to the channel id and is alone in the open, or sealed under a method it names |
| ParserLaws.LaterEntryIsAcceptedIff | packages/transaction-manager/src/channel-parser.ts:52-122 | After the first accepted entry, one is accepted iff it carries JSON data alone in the open in a clear channel, or sealed without naming a method in an encrypted one |
| IgnoredReasons.IgnoredForIff | packages/transaction-manager/src/channel-parser.ts:52-122 | One condition on what is persisted for each reason, such that an entry is ignored for that reason iff it meets it; an unopened key is reported with the message of the last entry that fails |
| DiscoveryLaws.OneMoreEntryTells | packages/transaction-manager/src/channel-parser.ts:145-230 | For any log, what one more entry tells of type, key and method: JSON data in the open shows a clear channel, a sealed entry whose key is found settles the key, a dictionary without a key for the reader shows an encrypted channel, anything else tells nothing |
| AppendLaws.AppendIsReadBackIff | packages/transaction-manager/src/transaction-manager.ts:67-105 | For any log, a successful append is read back by its writer iff the first entry that it accepts is of the kind of what it wrote; earlier verdicts stay |
| AppendLaws.ClearEntryBeforeCreationMisleads | packages/transaction-manager/src/channel-parser.ts:145-230 | The failing family: with a clear JSON entry before the sealed creation every append is written in clear, and a reader that accepts the creation ignores it |
| ChannelParser.LogReader.DecryptAndCleanChannel | packages/transaction-manager/src/channel-parser.ts:21-136 | The walk with its captured type and method computes the cleaning of the log |
| ChannelParser.LogReader.GetChannelTypeAndChannelKey | packages/transaction-manager/src/channel-parser.ts:145-230 | The search of the log computes the discovery of type, key and method |
| TransactionsParser.Parser.Parse | packages/transaction-manager/src/transactions-parser.ts:31-114 | The branches with their reassigned key and method compute the decision table over type, key and method |
| TransactionsParser.Parser.FindChannelKey | packages/transaction-manager/src/transactions-parser.ts:123-188 | The loop over the keys dictionary computes the search fold, with the last failure as its reason |
| TransactionsParser.SearchFindsSharedKey | packages/transaction-manager/src/transactions-parser.ts:146-187 | In a dictionary that shares one key, exactly the listed identities find it |
| TransactionsParser.FoundKeyWasSealedForReader | packages/transaction-manager/src/transactions-parser.ts:146-187 | Any key found was sealed in this dictionary for one of the reader's own identities |
| TransactionManager.Manager.PersistTransaction | packages/transaction-manager/src/transaction-manager.ts:40-105 | Appends exactly one entry to one channel, or throws and leaves every channel as it was |
| TransactionManager.Manager.ShareKey | packages/transaction-manager/src/transactions-factory.ts:157-193 | Fills the dictionary with one sealed copy of the key for each stakeholder, later ones replacing earlier ones of the same identity |
| TransactionManager.Manager.GetTransactionsByChannelId | packages/transaction-manager/src/transaction-manager.ts:146-175 | Returns the cleaned channel, with an encryption method only when there is one |
| TransactionManager.Manager.ParseMultipleChannels | packages/transaction-manager/src/transaction-manager.ts:215-243 | Cleans every channel of a topic query on its own; none influences another |
| Transaction.EncryptedTransaction.GetData | packages/transaction-manager/src/encrypted-transaction.ts:39-49 | The cached data never differs from decrypting again |
| Transaction.EncryptedTransaction.GetHash | packages/transaction-manager/src/encrypted-transaction.ts:56-67 | The cached hash never differs from decrypting and hashing again |
| Transaction.EncryptedTransaction.GetError | packages/transaction-manager/src/encrypted-transaction.ts:74-87 | There is an error iff there is no hash |
| RequestLaws.ConfirmedStateIgnoresPending | packages/request-logic/src/request-logic.ts:427-525 | For any list the confirmed state is the error-skipping fold over the confirmed entries alone |
| RequestLaws.ConfirmedStateIgnoresReplays | packages/request-logic/src/request-logic.ts:427-525 | A further confirmed copy with the same action hash, anywhere after the first, changes no confirmed state |
| NormalizeLaws.ConfirmedStateIgnoresCopies | packages/utils/src/utils.ts:106-128 | The same for any copy equal up to the order of keys and letter case: of strings, or of keys too when they stay in the order of their counterparts |
| RequestLaws.ReplayByIdChangesNothing | packages/request-logic/src/request-logic.ts:434-439 | A copy appended to the channel and no earlier than the original changes no confirmed state after sorting by time |
| RequestLaws.KeptIsConfirmedThenPending | packages/request-logic/src/request-logic.ts:742-781 | What is kept is every confirmed entry, then the pending entries after the last of them |
| RequestLaws.TwoFoldsAreOne | packages/request-logic/src/request-logic.ts:494-552 | The pending state and the rejections are those of one error-skipping fold from nothing over all unique actions |
| RequestLaws.ReadingsAgree | packages/request-logic/src/request-logic.ts:434-436 | On a channel sorted by timestamp the sort of the reading by id changes nothing, so both readings give the same states and ignored list |
| RequestLaws.SortSorts | packages/request-logic/src/request-logic.ts:436-439 | The sort by timestamp sorts |
| RequestLaws.SortPermutes | packages/request-logic/src/request-logic.ts:436-439 | The sort by timestamp loses and adds nothing |
| RequestLaws.EveryTransactionIsAccountedFor | packages/request-logic/src/request-logic.ts:439-545 | Every transaction ends in exactly one place, applied or ignored for one of four causes; multisets and counts add up |
| RequestLaws.AppliedActionsGiveTheState | packages/request-logic/src/request-logic.ts:504-545 | The applied actions alone give the same state, and none of them is then rejected |
| RequestSteps.PendingArrives | packages/request-logic/src/request-logic.ts:427-545 | One more pending transaction in any channel: the confirmed state stays; it is applied to the pending state at its own time, unless it is not JSON, hashes like a kept one or is rejected, and then one ignored entry says so |
| RequestSteps.ConfirmedArrives | packages/request-logic/src/request-logic.ts:427-545 | One more confirmed transaction: all pending ones before it become stale, it is applied to the confirmed state unless it is not JSON, hashes like a confirmed one or is rejected, and both states are then the same |
| RequestSteps.ChannelsWithStateAreReported | packages/request-logic/src/request-logic.ts:594-658 | The reports by topic are those of exactly the channels with a state, in order; without a confirmed state the whole pending state is shown |
| RequestLogic.RemoveOldPendingTransactions | packages/request-logic/src/request-logic.ts:742-781 | The flagged scan of the array reversed in place keeps exactly confirmed entries and pending ones with no later confirmed; the caller's array is left reversed |
| RequestLogic.UniqueByAction | packages/utils/src/utils.ts:106-128 | The accumulators hold the first occurrence of each hash, and the others |
| RequestLogic.FoldSkippingErrors | packages/request-logic/src/request-logic.ts:501-545 | Computes the fold that keeps the state when an action is rejected, adding one ignored entry for each rejection |
| RequestLogic.ComputeRequestFromChannel | packages/request-logic/src/request-logic.ts:569-612 | The pipeline on the caller's array computes the interpretation of the channel |
| RequestLogic.ComputeRequestFromRequestId | packages/request-logic/src/request-logic.ts:427-486 | The second copy of the steps, on an array of its own, computes the interpretation of the channel sorted by time |
| RequestLogic.ComputeMultipleRequestFromChannels | packages/request-logic/src/request-logic.ts:560-658 | Interprets every channel on its own and reports those with a confirmed state or a pending difference, although each call reverses an array in place |
| PendingDifference.ComputeDiff | packages/request-logic/src/request-logic.ts:703-733 | The loop over the properties, which creates the difference when first needed, computes the difference of the two states |
| PendingDifference.DifferenceIsExact | packages/request-logic/src/request-logic.ts:703-733 | The difference holds exactly the properties whose normal forms differ, with their pending values and the events after as many as were confirmed, and is absent iff there is none |
| PendingDifference.MergingGivesPendingIff | packages/request-logic/src/request-logic.ts:710-731 | Applied to the confirmed state it gives the normal forms of the pending one iff no property has disappeared and the pending events extend the confirmed ones |
| RequestLaws.ReportedDifferenceIsEnough | packages/request-logic/src/request-logic.ts:594-616 | With handlers that keep properties and append events, the reported difference applied to the confirmed state always gives the pending state that the fold reaches |
| RequestCore.ApplyActionToRequest | packages/request-logic/src/requestLogicCore.ts:39-128 | Applies an action to a deep copy: no object allocated before is modified, nested ones included, whether it succeeds or throws midway, and no object reachable from the result is one of the request |
| RequestCore.ApplyActionToExtension | packages/advanced-logic/src/extensions/abstract-extension.ts:54-100 | Copies the dictionary with its objects and changes one entry of the copy, which an action may write before it throws; only new objects are modified or returned |
| RequestCoreLaws.FoldObjects | packages/request-logic/src/request-logic.ts:501-545 | The fold over request objects computes the abstract fold, modifies no earlier object, returns the very object it started from when everything is rejected, and otherwise one made of new objects only |
| RequestCoreLaws.ExtensionActionIsLocal | packages/advanced-logic/src/extensions/abstract-extension.ts:54-100 | A successful extension action changes its own id and no other |
| RequestCoreLaws.ExtensionsOnlyGrow | packages/request-logic/src/requestLogicCore.ts:104-127 | A successful fold removes no extension, adds only created ids, and changes only ids it names |
| RequestCoreLaws.AcceptedUpdateKeepsExtensions | packages/request-logic/src/requestLogicCore.ts:39-128 | With handlers that leave extensions alone, an accepted update keeps every extension it does not name |
| RequestCoreLaws.CreationIsFreshIff | packages/advanced-logic/src/extensions/abstract-extension.ts:64-81 | In an accepted action a creation meets an absent id iff no earlier extension action of that action created it |
| RequestCoreLaws.SecondCreationReplacesFirst | packages/advanced-logic/src/extensions/abstract-extension.ts:64-81 | When two creations of one id in one action are accepted, the second state replaces the first |
| RequestCoreLaws.SecondCreationIsAccepted | packages/advanced-logic/src/extensions/abstract-extension.ts:64-81 | With an extension that accepts creations, both creations of one id in one action are accepted |
| RequestAcceptance.UpdateIsAcceptedIff | packages/request-logic/src/requestLogicCore.ts:39-128 | A known update of a valid request is accepted iff its handler does not throw and every extension action in turn succeeds, and the state is then what the handler left with the extension states reached; otherwise the fold keeps the old state and ignores it for the first failure |
| RequestAcceptance.CreationIsAcceptedIff | packages/request-logic/src/requestLogicCore.ts:53-58 | The same for a creation, which is refused when there is a request already |
| RequestAcceptance.OtherActionsAreRefused | packages/request-logic/src/requestLogicCore.ts:39-102 | An unsupported version, an update without a request, an invalid request and an unknown name are refused, for these reasons in this order, and change nothing |
| RequestAcceptance.ExtensionsSucceedIff | packages/advanced-logic/src/extensions/abstract-extension.ts:54-100 | The fold over extension actions returns some states iff a sequence of single successful changes leads there, and throws what the first action that fails throws |
| NormalizeLaws.SortedAlikeIff | packages/utils/src/utils.ts:49-64 | Deep sorting is a canonical form: two values sort alike iff they differ only in the order of keys; sorting again changes nothing |
| NormalizeLaws.EqualUpToOrderAndCaseHashAlike | packages/utils/src/crypto.ts:51-75 | Values equal up to the order of keys and the letter case of strings have the same normal form |
| NormalizeLaws.HashedAlikeIff | packages/utils/src/crypto.ts:64-75 | Values with no keys equal in lower case have one normal form iff they differ only in key order and letter case and, at every depth, every two keys of one are in the same order as their counterparts in the other |
| NormalizeLaws.KeyCaseCounts | packages/utils/src/crypto.ts:64-75 | Letter case in a key can change the normal form: keys are sorted before letters are lowered |
| DataAccessRuns.ReadReturns | packages/data-access/src/data-read.ts:25-47 | For every run and any ids, a read returns for each entry of the channel the document stored under its id, when confirmed and of the channel, in persist order, then the remembered pending one; it fails iff a confirmed document is malformed |
| DataAccessRuns.ReadAgreesIff | packages/data-access/src/data-read.ts:25-47 | It returns each confirmed transaction of the channel, then the latest iff unconfirmed, iff every confirmed id holds a document that reads as its entry and the latest unconfirmed entry is still remembered |
| DataAccessRuns.ReadAgreesWithLog | packages/data-access/src/data-read.ts:25-47 | In a run in which no two different documents have one id, copies included, every read agrees with the log, and fails iff a confirmed transaction is malformed |
| DataAccessReads.FieldsAreRead | packages/data-access/src/data-read.ts:186-198 | In every run, a read returns for each confirmed entry its keys, and its other fields unless they are empty, as confirmed at time zero; and the pending entry as it was written |
| DataAccessReads.ReadsAsIff | packages/data-access/src/data-read.ts:186-198 | Two entries read alike iff they have one channel, equal keys and fields that differ at most in being empty or absent |
| DataAccessReads.WrittenTransactionsComeBack | packages/data-access/src/data-read.ts:25-47 | Round trip through the storage: transactions that writers of channels make are read back equal, the confirmed ones in persist order and then the latest pending one |
| DataAccessReads.WholeChannelIsReadIff | packages/data-access/src/pending-store.ts:10-28 | Such a channel is read as a whole iff every transaction but the latest is confirmed, since the pending store remembers one |
| DataAccessReads.ReadSucceedsIff | packages/data-access/src/in-memory-indexer.ts:47-103 | Whatever the stores hold, a read fails iff the document of the pending item or of a location of the channel is missing, or confirmed and no block |
| DataAccessReads.ReadForgetsTheConfirmed | packages/data-access/src/data-read.ts:122-161 | A read changes the pending store only: it forgets the item of the channel iff the location of its latest entry is confirmed |
| DataAccessReads.TopicsAreIndexed | packages/data-access/src/in-memory-indexer.ts:26-31 | In every run the index of a topic holds the channels of the entries that name it, in order and with repetitions |
| DataAccessReads.ChannelIsFoundByTopicIff | packages/data-access/src/in-memory-indexer.ts:26-31 | A channel is indexed under a topic iff one of its transactions was persisted with it |
| DataAccessRuns.LetterCaseLosesATransaction | packages/request-client.js/src/mock-storage.ts:19-57 | Two documents of one channel whose texts differ in letter case only have one id: the second is returned twice and the first is lost |
| DataAccessRuns.LocationIsReadTwiceIff | packages/data-access/src/data-read.ts:25-47 | For every run, a storage location is returned twice iff two entries of the channel have one id under which a confirmed document of the channel is stored |
| DataAccessRuns.PersistedTwiceIsReadTwice | packages/request-client.js/src/mock-storage.ts:19-57 | Persisting a well-formed document, persisting it again and confirming it makes a read return its location twice |
| DataAccessRuns.RunKeepsInv | packages/data-access/src/mock-data-access.ts:27-35 | For every run and any ids, the index agrees with the log, every id holds the document of an entry with that id, and a pending item is missing only when its id is confirmed or overwritten |
| DataAccessRuns.ConfirmationBetweenAwaits | packages/data-access/src/data-read.ts:29-30 | With timers between the two awaits, a location is returned twice iff two entries share a confirmed id of the channel or the pending transaction is confirmed there |
| DataAccessRuns.TornRead | packages/data-access/src/data-read.ts:29-30 | A channel with one transaction, confirmed between the two awaits, returns its location twice |
| DataAccess.MockDataAccess.PersistTransaction | packages/data-access/src/mock-data-access.ts:27-35 | Stores a block of one transaction, remembers it as pending and indexes it; a block that cannot be built changes nothing |
| DataAccess.MockDataAccess.GetPending | packages/data-access/src/data-read.ts:122-161 | Returns the pending item of the channel unless its document is confirmed, and then forgets it |
| DataAccess.MockDataAccess.GetTransactionsByChannelId | packages/data-access/src/data-read.ts:25-47 | Joins the indexed transactions and the pending one, read in two steps |
| DataAccess.InMemoryIndexer.AddIndex | packages/data-access/src/in-memory-indexer.ts:26-31 | Appends one location to one channel, and the channel to each topic |
| DataAccess.InMemoryIndexer.ParseLocations | packages/data-access/src/in-memory-indexer.ts:72-103 | Returns the transactions of the confirmed documents, in order; a missing or unreadable document throws |
| DataAccess.MockStorage.ReadMany | packages/request-client.js/src/mock-storage.ts:59-72 | Reads every entry in order, or throws when one is missing |
| DataAccess.MockStorage.Append | packages/request-client.js/src/mock-storage.ts:19-57 | Stores a document under its own address as pending, an identical one included |
| DataAccess.MockStorage.Confirm | packages/request-client.js/src/mock-storage.ts:43-54 | Stores again, as confirmed, the document of the append whose timer fires, and touches no other id |
| Block.PushTransaction | packages/data-access/src/block.ts:118-146 | The loop over the topics of the copied block computes the pushed block |
| Block.BuiltBlockIsExact | packages/data-access/src/block.ts:118-146 | A built block holds the accepted transactions in order, each channel with exactly its own positions |
| Block.PositionsPartitionTheBlock | packages/data-access/src/block.ts:118-146 | The position lists partition the positions of the block, each in increasing order |
| Block.QueryReturnsEachTransactionOnce | packages/data-access/src/block.ts:171-228 | A query of any channels, repeated or unknown ones included, returns each of their transactions exactly once |
| BlockOrder.PositionOrderIff | packages/data-access/src/block.ts:217-228 | The positions of a query are in the order of the block iff their texts are in that order |
| BlockOrder.AnswerOrderIff | packages/data-access/src/block.ts:171-228 | The transactions of a query are then in the order of the block; when no two of them are equal they are iff the texts are |
| BlockOrder.WholeBlockInOrderIff | packages/data-access/src/block.ts:217-228 | A query of every channel gives the positions in the order of the block iff the block holds at most ten transactions |
| BlockOrder.SameDigitsKeepOrder | packages/data-access/src/block.ts:217-228 | Positions with the same number of digits are always in order |
| Block.ParsePrintedIff | packages/data-access/src/block.ts:44-106 | A printed built block is parsed back unchanged iff every accepted push was well formed |
| Block.EmptyDataIsNotParsed | packages/data-access/src/block.ts:44-146 | One push of empty data is accepted and its block is not parsed |
| BlockForms.ReadsIff | packages/data-access/src/block.ts:44-106 | A document is read as a block iff it is the text of that block and the block has version 0.1.0, payloads, hashes as channel ids and topics, and positions inside |
| BlockForms.RejectedForIff | packages/data-access/src/block.ts:44-106 | A document is rejected with an error iff the check of that error is the first to fail |
| BlockForms.BuiltTopicsAreExact | packages/data-access/src/block.ts:118-146 | A built block lists for each channel the topics of its accepted pushes, in order, and no channel without topics |
| SuperfluidRetriever.StreamPayments | packages/payment-detection/src/erc777/superfluid-retriever.ts:93-141 | The loop with its skipped pairs computes the payments of the closed list of events |
| SuperfluidRetriever.StreamAmountsAreTheIntegral | packages/payment-detection/src/erc777/superfluid-retriever.ts:93-134 | For any alternation of starts and stops on any base flow, a stop being an update or an END that takes the base flow too, amounts are non-negative and sum to the added flow over every second until now |
| SuperfluidRetriever.NestedRequestsArePaid | packages/payment-detection/src/erc777/superfluid-retriever.ts:93-134 | A second request on a running stream, ended together with the first, is paid its own rate for its time |
| SuperfluidRetriever.AmountsFallShortIff | packages/payment-detection/src/erc777/superfluid-retriever.ts:93-134 | For any sorted events whose own flow is never negative, on any base flow, the amounts never exceed the time integral, and reach it iff every event that lasts starts from nothing and is paid, or leaves nothing |
| SuperfluidRetriever.StreamOnBaseFallsShortIff | packages/payment-detection/src/erc777/superfluid-retriever.ts:108-118 | For a stream on a base flow, which an END stops as well, they reach it iff every event that lasts starts from the base flow, returns to it or ends the stream |
| SuperfluidRetriever.LoweredStreamIsUnderpaid | packages/payment-detection/src/erc777/superfluid-retriever.ts:115-118 | A flow that is lowered and not stopped is always underpaid |
| SuperfluidRetriever.EndOfAnotherSenderStopsPayment | packages/payment-detection/src/erc777/superfluid-retriever.ts:108-113 | After the END of another sender a stream that goes on is underpaid |
| SuperfluidRetriever.AmountsPlusShortfall | packages/payment-detection/src/erc777/superfluid-retriever.ts:93-134 | For any sorted events the amounts and what they miss add up to the time integral: after each event its own flow is missed, except what it adds when it is paid |
| SuperfluidRetriever.PaymentsSayWhatIsPaid | packages/payment-detection/src/erc777/superfluid-retriever.ts:93-141 | One payment for each event after which the time is paid, in order: the amount of that time, the timestamp at its end, the name of the event that ends it, and a start for the last one of an ongoing stream |
| SuperfluidDetector.GetBalance | packages/payment-detection/src/erc777/superfluid-detector.ts:54-82 | Overwrites the balance by the clamped share of the request; an error or an absent balance is passed on unchanged |
| SuperfluidDetector.SharesAddUp | packages/payment-detection/src/erc777/superfluid-detector.ts:66-79 | The shares of n requests add up to the total between zero and n times the expected amount |
| SuperfluidDetector.EarlierRequestsAreFull | packages/payment-detection/src/erc777/superfluid-detector.ts:66-79 | A request receives something only if every earlier one is full |
| SuperfluidDetector.AtMostOneIsPartial | packages/payment-detection/src/erc777/superfluid-detector.ts:66-79 | At most one request is partially paid |
| BitcoinQuorum.GetAddressBalanceWithEvents | packages/payment-detection/src/btc/default-bitcoin-detection-provider.ts:36-80 | A returned balance is the only one that two different providers report, with exactly two votes, and comes with the events of the first of them; otherwise there are too few providers, a call rejects before an agreement, or no two agree |
| BitcoinQuorum.BalanceIsSharedByTwo | packages/payment-detection/src/btc/default-bitcoin-detection-provider.ts:88-121 | On the responses alone: a returned balance is neither null nor "-1", and is what the first of two different providers that give it answered; no two providers agreed before the last call |
| BitcoinQuorum.BalanceComesBackIff | packages/payment-detection/src/btc/default-bitcoin-detection-provider.ts:36-80 | A balance comes back iff two providers give the same one, null and "-1" aside, and nobody up to the second of them rejects; otherwise which error is thrown |
| BitcoinQuorum.NoQuorumIff | packages/payment-detection/src/btc/default-bitcoin-detection-provider.ts:36-80 | When all of at least two providers answer, it throws iff no two of them give the same balance other than null and "-1" |
| BitcoinQuorum.OutcomesAgree | packages/payment-detection/src/btc/default-bitcoin-detection-provider.ts:36-80 | The providers determine whether it throws, the balance, its events and the number of calls if not, and the error if so, except which of two rejections of the first two calls is thrown |
| BitcoinQuorum.TwoVotesAreTwoProviders | packages/payment-detection/src/btc/default-bitcoin-detection-provider.ts:88-121 | A balance has two votes iff two different providers report it |
| BitcoinQuorum.GetMostCommonBalance | packages/payment-detection/src/btc/default-bitcoin-detection-provider.ts:88-121 | Returns the first answer with a balance of the highest number of votes, counted exactly |
| BitcoinQuorum.OneWrongProviderIsOutvoted | packages/payment-detection/src/btc/default-bitcoin-detection-provider.ts:36-80 | With three answering providers and at most one wrong, every outcome is the true balance after at most three calls |
| BitcoinQuorum.AgreementExcludesFailure | packages/payment-detection/src/btc/default-bitcoin-detection-provider.ts:36-80 | When the loop can stop with an agreement, no way of failing is open |
| ChainlinkAggregators.CollectLogs | packages/toolbox/src/chainlinkConversionPathTools.ts:63-85 | The block loop terminates and reads every window, each starting at the last block of the one before |
| ChainlinkAggregators.OverlappingWindowsAreHarmless | packages/toolbox/src/chainlinkConversionPathTools.ts:63-114 | The map built from the windows is the map built from every block once, for any positive range |
| ChainlinkAggregators.FoldIsLastWrite | packages/toolbox/src/chainlinkConversionPathTools.ts:88-114 | The fold is last-write-wins for every pair, with deleted pairs absent and no empty inner map |
| ChainlinkAggregators.GetAggregators | packages/toolbox/src/chainlinkConversionPathTools.ts:63-126 | Returns, with both levels of keys in lower case, the map built from every block once |
| ChainlinkAggregators.AggregatorIsLastWrite | packages/toolbox/src/chainlinkConversionPathTools.ts:63-126 | The aggregator returned for a pair is that of the last log that names it, over all blocks, and absent iff there is none or it gives the zero address, when its addresses are written in one way only |
| ChainlinkAggregators.ListAggregators | packages/toolbox/src/chainlinkConversionPathTools.ts:151-173 | The graph is exactly the symmetric closure of the pairs, with weight 1 and no isolated node |
| ChainlinkAggregators.AddPair | packages/toolbox/src/chainlinkConversionPathTools.ts:163-171 | Adds an edge in both directions and keeps every other edge |
| MetaDetector.MetaExtension.GetBalance | packages/payment-detection/src/meta-payment-detector.ts:126-189 | The loop that writes into the objects it iterates computes the aggregated balance and the values after it, when a network is not configured or throws too |
| MetaDetector.SubExtension.GetBalance | packages/payment-detection/src/fee-reference-based-detector.ts:71-126 | Writes the fee balance into the live extension only when there is no error |
| MetaDetectorLaws.MetaBalanceIsTheSum | packages/payment-detection/src/meta-payment-detector.ts:126-189 | When no sub-network throws, the balance is the declared balance plus the sum of the sub-balances, errored ones counting zero |
| MetaDetectorLaws.MetaBalanceFailsIff | packages/payment-detection/src/meta-payment-detector.ts:126-165 | It fails iff some sub network is not configured, or is a proxy with readable events and no fee address; the first such one gives the error, and nothing from it on is written |
| MetaDetectorLaws.MetaBalanceReports | packages/payment-detection/src/meta-payment-detector.ts:126-189 | Otherwise the events are the declared and the readable ones in stable order of time, the balance is their total, each readable proxy gets its own fees, and the fee total holds the events and the sum of all fees held |
| MetaDetectorLaws.MetaBalanceIgnoresOrder | packages/payment-detection/src/payment-detector-base.ts:35-91 | The order in which events are reported never matters to the balance, nor to whether it is an error |
| EventTotals.OneEventMore | packages/payment-detection/src/fee-reference-based-detector.ts:110-126 | One event more, anywhere among others, adds its amount if a payment, takes it back if a refund, and adds its fee iff the fee went to the address, to none or to an empty one |
| EventTotals.BalanceIgnoresOrder | packages/payment-detection/src/payment-detector-base.ts:75-91 | A balance and the fees of an address depend on the events as a multiset only |
| EventTotals.SortIsStable | packages/payment-detection/src/payment-detector-base.ts:87-91 | The sort of events orders them by time, loses and adds none, and keeps the order of those of one time |
| MetaDetectorLaws.MetaBalanceIsRepeatable | packages/payment-detection/src/meta-payment-detector.ts:126-189 | Calling again gives the same balance and leaves the values, the fee total included, as they are |
| MetaDetectorLaws.FeeTotalCountsStaleFees | packages/payment-detection/src/meta-payment-detector.ts:166-184 | The written fee total is what the reported events pay to the fee addresses of their networks, plus the fees left in networks that write none now, so it is right iff these sum to zero |
| MetaDetectorLaws.StaleFeeIsReported | packages/payment-detection/src/meta-payment-detector.ts:166-184 | A call that reads a proxy, then one that cannot, still reports the fee of the first |
| MultiFormat.SerializeThenDeserialize | packages/multi-format/src/index.ts:25-51 | Every serializable object deserializes back to itself, a hexadecimal value in lower case |
| MultiFormat.DeserializeThenSerialize | packages/multi-format/src/index.ts:25-51 | Every deserializable string serializes back to itself, hexadecimal in lower case, iff it is longer than its prefix |
| MultiFormat.SerializesIff | packages/multi-format/src/serializable-multi-format.ts:22-75 | What each type of object is serialized to: its prefix 00, 01, 02, 03, 04 or 20, then its value; hashes of 64 and addresses of 40 characters after 0x, in lower case |
| MultiFormat.DeserializesIff | packages/multi-format/src/serializable-multi-format.ts:22-75 | What each string is deserialized to, by its prefix, and by its length for hashes and addresses |
| MultiFormat.AtMostOneFormatAccepts | packages/multi-format/src/serializable-multi-format.ts:22-75 | No object and no string is accepted by two formats |
| MultiFormat.ArrangementDoesNotMatter | packages/multi-format/src/multi-format-group.ts:27-81 | In any arrangement of the formats into groups the accepting format does the work |

## Left out

- Real cryptography, keccak and JSON text: encryption is ideal, hashes are uninterpreted, and documents are abstract values.
- Action handlers and concrete extensions are arbitrary functions here; what they compute is not part of this model.
- Event emitters, topics and metadata that the write steps pass along; the confirmation of a document is the timer of the in-memory storage.
- Queries by topic beyond what the index of topics holds, and timestamp boundaries of reads.
- RequestLogic.ComputeMultipleRequestFromChannels: the metadata of each channel is left out, and the channels are distinct arrays in a fixed order.
- Noise before the honest creation: the search for the key does not compare hashes with the channel id, so the claims that noise is harmless start after a creation that the reader opens; `AppendLaws` says what it does before.
- Lower-casing beyond ASCII, the order of integer-like keys, and values in which two keys of one object are equal up to letter case.
- ChainlinkAggregators.GetAggregators: retries and logs of later blocks are left out, which of two addresses equal up to letter case wins is left open, and a negative range is not modelled (the constructor replaces zero by a default).
- One-off payments and the final sort of the transfer events; the event amounts are unbounded integers.
- BitcoinQuorum.GetMostCommonBalance: which of several equally frequent balances comes first is left open.
- Creation of extension data, HTTP, IPFS, providers, nodes, logging and deployment: plumbing.
