# yjs connector core in Dafny

A model of `AbstractConnector` (src/Connector.js), the peer-to-peer
connector of the yjs shared-editing framework, together with proofs about it.
The connector keeps a registry of connected peers. It picks one unsynced peer
at a time as the sync target and runs the two-step state handshake with it
("sync step 1" carries a state set, "sync step 2" carries the missing
operations and the delete set, and "sync done" closes the handshake). Each
incoming message passes a protocol version check and an auth gate
(`canRead`/`canWrite`). Updates are relayed to peers still in their relay
window. Local operations are buffered and broadcast in one "update" once the
store's transaction queue drains.

Files:

- `wrappers.dfy`: `Option`, `Outcome` and `Result`.
- `permissions.dfy`: the permissions `canRead`/`canWrite` test.
- `protocol.dfy`: peer records, messages, the pending work left with the
  replica store, and the pure rules for sync-target choice, gating,
  filtering, the handshake messages, and the answer transaction as written.
- `connector.dfy`: the class `AbstractConnector`. Its fields are the
  connector's own state. The collaborators appear as explicit state:
  - the transport is the `outbox`;
  - the listeners are the event logs `userEvents` and `firedListeners`;
  - the store calls are recorded in `storeLog`;
  - the store's transaction queue is `transactions`;
  - the `whenTransactionsFinished` callbacks are `whenFinished`;
  - the callbacks chained on `syncStep2` deferreds are `continuations`
    (deferreds are numbered, and `resolved` holds the resolved ones);
  - the relay `setTimeout`s are `timers`.

  Separate methods advance this pending work in the order the environment
  chooses. The class invariant `Valid` holds:
  - `peers` lists each registered peer once, in insertion order;
  - every deferred that is used or resolved was issued;
  - a non-empty broadcast buffer always has a flush scheduled;
  - waiting `whenSynced` listeners exist only while unsynced;
  - the sync target, when there is one, is a registered unsynced peer, and
    when there is none every peer is synced.
- `xml_attributes.dfy`: the integer coercion that `parseMessageFromXml`
  applies to attribute values.
- `scenarios.dfy`: a sequence of connector calls whose combined effect the
  source relies on.

Where the documented intent and the code differ, the model follows the code.
The one exception is the defect under "## Findings": the class runs the
corrected answer transaction, and the code as written is modelled beside it.
The cases where the model follows the code:

- After the role check, `this.role` is overwritten with the raw `opts.role`
  (src/Connector.js:53). An omitted role is therefore stored as `None`
  rather than as "master". Such a connector never counts as a slave.
- `userJoined` does not reset the connector's own `isSynced`.
- The version check applies to every message that carries a
  `protocolVersion`, whatever its type.
- "sync done" is handled whatever the sender's permission.
- `forwardAppliedOperations` is a flag of the store (`y.db`) that the
  constructor sets. The model keeps it as a constant of the connector.

## Model

| member | source | states |
|---|---|---|
| Permissions.Level | src/Connector.js:4-5 | ranks the permissions: read access means level at least 1, write access means level 2 |
| Permissions.WriteImpliesRead | src/Connector.js:4-5 | write access implies read access; read without write holds exactly for "read" |
| Protocol.FlushSends | src/Connector.js:235-243 | a flush sends nothing for an empty buffer, otherwise exactly one "update" broadcast carrying the whole buffer and no version or token |
| Protocol.NoDuplicatesAppend | src/Connector.js:140-147 | registering a user not yet present keeps the peer order free of duplicates |
| Protocol.FirstUnsyncedIndex | src/Connector.js:176-182 | the index of the scan: every earlier peer is synced and the peer at the index (if any) is not |
| Protocol.NextSyncTarget | src/Connector.js:176-185 | the chosen target is a registered unsynced peer with only synced peers before it; there is none exactly when every peer is synced |
| Protocol.ScheduledWork | src/Connector.js:184-216 | at most one transaction is requested; none exactly when every peer is synced and the connector already is; the state offer exactly when there is a next sync target, and to that target; the marking as synced exactly when every peer is synced and the connector is not |
| Protocol.NextTargetAfterJoin | src/Connector.js:158-160 | a user that joins behind peers that are all synced becomes the next sync target |
| Protocol.Without | src/Connector.js:125-127 | filtering out a user keeps exactly the other elements, leaves a list without the user unchanged, and keeps elements distinct |
| Protocol.WithoutAppend | src/Connector.js:125-127 | the filter keeps order: it distributes over concatenation |
| Protocol.WithoutSingle | src/Connector.js:125-127 | a single element is dropped exactly when it is the user filtered out |
| Protocol.DeleteOps | src/Connector.js:377-379 | the filter keeps exactly the delete operations |
| Protocol.DeleteOpsAppend | src/Connector.js:377-379 | the filter keeps order: it distributes over concatenation |
| Protocol.DeleteOpsSingle | src/Connector.js:377-379 | a single operation is kept exactly when it is a delete |
| Protocol.Forwarded | src/Connector.js:371-375 | one send of the unchanged message to each relayed peer, in order |
| Protocol.EncodeAll | src/Connector.js:231-233 | each operation is encoded in place, and the length is kept |
| Protocol.EncodeAllAppend | src/Connector.js:244-249 | encoding distributes over concatenation, so appending to the buffer equals encoding the joined batches |
| Protocol.MasterDefers | src/Connector.js:295-300 | a slave waits for the deferred of every registered master and for nothing else |
| Protocol.VersionCheckScope | src/Connector.js:260 | the version check refuses a message exactly when it carries a version other than 11, passes one that carries none, and passes every message the connector builds |
| Protocol.Gate | src/Connector.js:291-385 | step 1 is handled iff the sender can read; step 2 and "update" iff it can write; "sync done" always; anything else never |
| Protocol.GateMonotone | src/Connector.js:4-5 | raising a sender's permission never changes how a handled message is handled |
| Protocol.GateWithoutAccess | src/Connector.js:291-385 | without read access only "sync done" is handled |
| Protocol.StateOffer | src/Connector.js:189-198 | the offer carries our state set, version 11 and our token, and asks for untransformed operations only when configured to and the state set is empty |
| Protocol.UntransformedOnlyWhenEmpty | src/Connector.js:320-324 | an offer asks for untransformed operations only from an empty store, and the answer carries them exactly then |
| Protocol.StateSetAnswer | src/Connector.js:313-324 | the answer carries our state set, delete set, version and token; it carries the untransformed operations when the request prefers them and has an empty state set, and otherwise the operations the requester lacks |
| Protocol.AnswerSends | src/Connector.js:325-340 | the answer is sent first; "sync done" follows at once unless the peer is relayed to |
| Protocol.HandshakeAccepted | src/Connector.js:189-198 | both handshake messages pass a peer's version check; the offer is handled under read access and the answer only under write access |
| Protocol.StateSetAnswerAsWritten | src/Connector.js:313-319 | the answer as written takes its version and token from the transaction object |
| Protocol.AsWrittenAnswerIgnoresConnector | src/Connector.js:313-341 | with a transaction object lacking those fields, the answer as written has no version and no token, and the transaction sends exactly the answer followed at once by "sync done"; the corrected answer carries both, and with relaying on is sent alone |
| Connector.AcceptedRoles | src/Connector.js:43-49 | the constructor accepts exactly an omitted role, "master" and "slave" |
| Connector.AbstractConnector.constructor | src/Connector.js:33-69 | the options as stored (relaying on unless it is explicitly false, everyone may write by default, an empty token counts as none), the user id set unless disabled, empty registry and queues, and the invariant |
| Connector.AbstractConnector.Create | src/Connector.js:43-49 | construction fails exactly for a role other than master or slave, and otherwise yields a fresh valid connector |
| Connector.AbstractConnector.SetUserId | src/Connector.js:102-110 | the id is taken (and handed to the store) exactly when none was set |
| Connector.AbstractConnector.ResetAuth | src/Connector.js:70-78 | the token is stored, and broadcast exactly when it changed |
| Connector.AbstractConnector.Disconnect | src/Connector.js:83-92 | peers, relay set, listeners and sync state are cleared, the garbage collector is stopped, and the invariant holds |
| Connector.AbstractConnector.MarkAllUnsynced | src/Connector.js:95-97 | every registered peer becomes unsynced and nothing else in its record changes |
| Connector.AbstractConnector.Repair | src/Connector.js:93-101 | all peers become unsynced and the first peer in insertion order becomes the target; with no peers, the transaction that marks the connector synced is requested |
| Connector.AbstractConnector.FindFirstUnsynced | src/Connector.js:176-182 | the loop finds the first unsynced peer in insertion order, agreeing with FirstUnsyncedIndex |
| Connector.AbstractConnector.FindNextSyncTarget | src/Connector.js:171-218 | nothing happens during a sync; otherwise the target becomes NextSyncTarget, and its offer (or the marking of the connector as synced) is queued; the invariant holds |
| Connector.AbstractConnector.ForgetUser | src/Connector.js:117-134 | the record is deleted, the user leaves the peer order and the relay set, "userLeft" is emitted, and the registry stays consistent |
| Connector.AbstractConnector.UserLeft | src/Connector.js:117-135 | an unknown user changes nothing; otherwise the user is forgotten, and only when it was the target is a new target chosen |
| Connector.AbstractConnector.AddConnection | src/Connector.js:144-150 | the user is registered unsynced, with no permission and a fresh, unresolved deferred |
| Connector.AbstractConnector.UserJoined | src/Connector.js:136-161 | a missing role and a repeated join fail and change nothing; otherwise the user is registered and announced, and becomes the target exactly when no sync was in progress |
| Connector.AbstractConnector.WhenSynced | src/Connector.js:164-170 | the listener fires at once when synced, and is queued otherwise |
| Connector.AbstractConnector.SetSyncedWith | src/Connector.js:391-400 | a registered peer is marked synced; the next target is chosen only when this peer was the target |
| Connector.AbstractConnector.BroadcastOps | src/Connector.js:230-250 | the encoded operations are appended to the buffer; a flush is scheduled exactly when the buffer was empty |
| Connector.AbstractConnector.BroadcastOperations | src/Connector.js:235-243 | the buffer is sent as FlushSends says and then emptied |
| Connector.AbstractConnector.CallWhenSyncedListeners | src/Connector.js:210-212 | every waiting listener fires, in order |
| Connector.AbstractConnector.RunSendStateSet | src/Connector.js:186-200 | the queued offer transaction sends StateOffer to its target |
| Connector.AbstractConnector.RunMarkSynced | src/Connector.js:203-215 | the connector ends synced with no waiting listeners; the listeners that waited fire, once |
| Connector.AbstractConnector.RunAnswerStateSet | src/Connector.js:305-341 | the answer transaction sends StateSetAnswer; the sender then joins the relay set with a 5000 ms timer, or is sent "sync done" at once; this is the corrected transaction of "## Findings", which reads the connector's version, token and relay flag |
| Connector.AbstractConnector.RunApplyOps | src/Connector.js:348-356 | the answer's untransformed operations are applied when present, and its operations otherwise |
| Connector.AbstractConnector.RunApplyDeleteSet | src/Connector.js:359-361 | the answer's delete set is applied |
| Connector.AbstractConnector.RunFinishedCallback | src/Connector.js:358-363 | a flush sends the buffer; a delete-set callback queues its transaction and resolves its deferred |
| Connector.AbstractConnector.RunFinishedCallbacks | src/Connector.js:358-363 | the batch runs in order: its delete-set transactions are queued in order, its deferreds are resolved, and the buffer is flushed iff the batch holds a flush |
| Connector.AbstractConnector.TransactionsFinished | src/Connector.js:358-363 | once the queue drains, every waiting callback runs; a delete set is applied only after every transaction requested before it; the invariant holds |
| Connector.AbstractConnector.RunContinuation | src/Connector.js:304-369 | a ready offer is answered by a transaction; a ready "sync done" marks its sender synced, as SetSyncedWith does |
| Connector.AbstractConnector.SyncingClientExpired | src/Connector.js:328-335 | the peer leaves the relay set and is sent "sync done" |
| Connector.AbstractConnector.ForwardToSyncingClients | src/Connector.js:371-375 | the message goes to every relayed peer, in order |
| Connector.AbstractConnector.ReceiveOffer | src/Connector.js:291-304 | the answer waits for every master's deferred at a slave, and for nothing otherwise |
| Connector.AbstractConnector.ReceiveAnswer | src/Connector.js:343-364 | the operations are applied first; the delete set follows, and resolves the sender's deferred, once the queue drains |
| Connector.AbstractConnector.ReceiveSyncDone | src/Connector.js:365-369 | the sender is marked synced once its deferred resolves |
| Connector.AbstractConnector.ReceiveUpdate | src/Connector.js:370-384 | the update is relayed, its deletes are re-broadcast when forwarding applied operations, and it is applied |
| Connector.AbstractConnector.Dispatch | src/Connector.js:290-385 | the handler Gate selects runs, and a message the gate turns away changes nothing |
| Connector.AbstractConnector.AuthenticateSender | src/Connector.js:272-288 | a token is always checked and announced; without a token the anonymous check runs only when no permission is memoised |
| Connector.AbstractConnector.HandleRegistered | src/Connector.js:272-385 | the permission is memoised and then the gated handler runs with it |
| Connector.AbstractConnector.ReceiveMessage | src/Connector.js:254-390 | our own message is ignored; a foreign version is answered with "sync stop" and rejected; an unknown sender is rejected; otherwise the message is authenticated and dispatched |
| Connector.DeleteSetTransactions | src/Connector.js:358-361 | draining requests only delete-set transactions, at most one per callback |
| Connector.DeleteSetTransactionsAppend | src/Connector.js:358-361 | draining a batch requests the transactions of its parts, in order |
| Connector.DeleteSetTransactionsSingle | src/Connector.js:358-361 | a flush requests nothing, and a state answer's callback requests exactly the transaction applying its delete set |
| Connector.ResolvedDefers | src/Connector.js:362 | draining resolves exactly the deferreds of the batch's delete-set callbacks: each of them, and no other |
| Connector.ResolvedDefersIssued | src/Connector.js:358-363 | draining resolves only deferreds that were issued |
| Scenarios.CoalescedBroadcast | src/Connector.js:230-250 | two `broadcastOps` calls made before the queue drains go out as a single "update" carrying both batches, encoded and in call order; the buffer ends empty |
| XmlAttributes.NatString | src/Connector.js:429 | the decimal digits of a natural number, without a leading zero |
| XmlAttributes.IntString | src/Connector.js:429 | an integer printed: a minus sign exactly for negative numbers, then digits |
| XmlAttributes.ParseInt | src/Connector.js:428 | `parseInt(value, 10)` succeeds exactly when a digit follows the white space and the optional sign |
| XmlAttributes.CoerceAttribute | src/Connector.js:427-433 | the attribute text is always recoverable from the value; a number is produced only from text that parses to an exactly representable integer |
| XmlAttributes.ParseNatString | src/Connector.js:428-429 | reading back the digits of a number gives the number |
| XmlAttributes.ParseIntString | src/Connector.js:428-429 | parsing a printed integer gives the integer |
| XmlAttributes.CoerceRecoversIntegers | src/Connector.js:427-433 | an integer attribute comes back as the same number |
| XmlAttributes.CoerceNumberIff | src/Connector.js:427-433 | an attribute becomes a number iff its text is how some exactly representable integer prints |
| XmlAttributes.CoercionLosesStringType | src/Connector.js:427-433 | a string attribute "42" comes back as the number 42 |
| XmlAttributes.NegativeZeroStaysText | src/Connector.js:427-433 | "-0" stays text |
| XmlAttributes.LeadingZeroStaysText | src/Connector.js:427-433 | "007" stays text |

## Left out

- The walks over XML elements in `parseMessageFromXml` and `encodeMessageToXml` (src/Connector.js:414-490) are left out, because they only drive a foreign element API. The integer coercion they apply is modelled.
- The replica store's internals are left out: state sets, delete sets, operation application and garbage collection. Store reads come in as a `StoreView` parameter, and store calls are recorded in `storeLog`.
- The latency of `checkAuth` is left out. The permission is memoised as a resolved value, and the gated handler runs in the same step as receipt.
- Microtask ordering between promise callbacks is left out. Pending work is run by explicit methods, in an order the environment chooses.
- JavaScript iterates integer-like object keys first, in numeric order. The model takes insertion order for all keys (`peers`).
- Listener registration (`onUserEvent`, `removeUserEventListener`) is left out. The events every listener would receive are logged in `userEvents`.
- `reconnect` is left out, because it only restarts the store's garbage collector. Logging and `debug` are left out too.
- A message field the sender omits is modelled as its empty value. Message types other than the six the protocol uses are one `Other` case, which no branch handles.
- `Y.utils.generateGuid()` becomes a constructor parameter.
- Permissions other than "read" and "write" are one `NoAccess` value. Neither predicate accepts them.
- Roles other than "master" and "slave" are one `OtherRole` value. The constructor rejects it.
- User ids are an abstract type that is only compared for identity. The model assumes string ids. The sync target is read as an object key, so it is always a string (src/Connector.js:177-179), and it is compared with `===` against the id the caller passes (src/Connector.js:121, 396). With a numeric id, the target is never cleared when that peer leaves or is synced, and the model does not capture that.
- The model also assumes ids that do not name a property of `Object.prototype`. In the source, `connections` is a plain object (src/Connector.js:54, 85), and every registration test is `connections[id] != null` (src/Connector.js:118, 140, 272, 285, 289, 393). That test also finds inherited properties, so an id such as `"toString"`, `"constructor"` or `"__proto__"` counts as registered without joining. Three consequences follow, and the model has none of them:
  - `userJoined("constructor", …)` throws "This user already joined!" (src/Connector.js:141), while `Connector.AbstractConnector.UserJoined` registers the user.
  - An "update" from an unjoined sender `"toString"` is authenticated against `Object.prototype.toString` and then relayed and applied (src/Connector.js:285-290, 370-384), while `Connector.AbstractConnector.ReceiveMessage` rejects it as undeliverable.
  - `userLeft` and `_setSyncedWith` act on the inherited property in the same way.
- Connector.AbstractConnector.ResetAuth: `null` and `undefined` are one value, `None`. The source compares them with `!==` (src/Connector.js:71). So a connector built without a token (whose token is `null`) that is reset to `undefined` stores it and broadcasts an "auth" message. The model sends nothing in that case.
- Connector.AbstractConnector.AuthenticateSender: the auth provider always yields a permission; an auth check that rejects is not modelled. In the source, a rejected check emits no "userAuthenticated" event (src/Connector.js:276-284). The rejected promise also stays memoised, because the field is no longer `null` (src/Connector.js:285). So every later message from that peer that carries no token is rejected as well.
- Connector.AbstractConnector.ReceiveMessage: does not return the rejection the source gives when the auth check rejects (src/Connector.js:289-290). In that case no branch runs, not even the ungated handling of "sync done" (src/Connector.js:365). The nearest model value, `NoAccess`, still handles "sync done".
- Connector.AbstractConnector.RunAnswerStateSet: runs the corrected answer transaction, not the one as written (see "## Findings"). As written, the relay flag is read from the store's transaction object, which lacks it. So "sync done" is sent at once and `syncingClients` never fills. In the program as written, the relaying of ForwardToSyncingClients and the timer of SyncingClientExpired therefore never act; in the model they act whenever relaying is configured on.
- XmlAttributes.CoerceAttribute: canonical integers beyond 2^53 - 1 stay text in the model. JavaScript turns some of them into numbers whose printed form happens to match.
- XmlAttributes.ParseInt: JavaScript skips every Unicode space separator. The model lists the common white-space characters. A value with leading white space is never coerced either way.

## Findings

| source | as written | input that shows it | evidently intended | confidence | as-written member | corrected member |
|---|---|---|---|---|---|---|
| src/Connector.js:313-326 | inside the generator run by `requestTransaction`, `this` is the store's transaction object, so the answer's `protocolVersion` and `auth` and the relay flag `forwardToSyncingClients` come from that object, not from the connector | a connector with an auth token and default relaying answers a state offer: the answer carries no version and no token, and "sync done" is sent at once without relaying | read the connector's own fields (`conn.protocolVersion`, `conn.authInfo`, `conn.forwardToSyncingClients`) | not executed; follows from the generator's `this` binding | Protocol.AsWrittenAnswerIgnoresConnector | Protocol.StateSetAnswer |
