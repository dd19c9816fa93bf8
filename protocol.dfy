/** The values the connector works with: peer records, messages, the work it
    leaves pending with the replica store, and the pure rules behind its
    scheduling, dispatch and forwarding (src/Connector.js). */
module Protocol {
  import opened Wrappers
  import opened Permissions

  /** A user id: only compared for identity. */
  type PeerId(==, !new)
  /** An auth token as carried in messages and in `authInfo`. */
  type Token = string
  /** The identity of one `syncStep2` deferred (src/Connector.js:148-150). */
  type DeferId = nat
  /** The identity of one `whenSynced` callback. */
  type Listener = nat

  /** `this.protocolVersion` (src/Connector.js:63). */
  const ProtocolVersion: int := 11
  /** The delay of the relay timer (src/Connector.js:335), in milliseconds. */
  const SyncingClientTimeoutMs: nat := 5000

  /** An encoded operation. The connector inspects only its struct tag. */
  datatype Op = Op(struct: string, payload: seq<int>)

  /** The replica store's state vector and delete set, opaque to the connector
      except for the number of entries of a state vector. */
  type StateSet = map<PeerId, nat>
  type DeleteSet = map<PeerId, seq<nat>>

  /** The `type` field of a message: the six types the protocol uses, and any
      other string, which no branch of the connector handles. */
  datatype MessageType =
    | SyncStep1   // 'sync step 1'
    | SyncStep2   // 'sync step 2'
    | SyncDone    // 'sync done'
    | SyncStop    // 'sync stop'
    | Update      // 'update'
    | AuthUpdate  // 'auth'
    | Other(name: string)

  /** A message as a record of the fields the connector reads or writes; a
      field the sender left out holds its "absent" value (None, empty, false). */
  datatype Message = Message(
    msgType: MessageType,
    protocolVersion: Option<int>,
    auth: Option<Token>,
    stateSet: StateSet,
    deleteSet: DeleteSet,
    preferUntransformed: bool,
    os: seq<Op>,
    osUntransformed: Option<seq<Op>>,
    ops: seq<Op>)

  function SyncStep1Message(stateSet: StateSet, auth: Option<Token>, preferUntransformed: bool): Message {
    Message(SyncStep1, Some(ProtocolVersion), auth, stateSet, map[], preferUntransformed, [], None, [])
  }

  function SyncStopMessage(): Message {
    Message(SyncStop, Some(ProtocolVersion), None, map[], map[], false, [], None, [])
  }

  function SyncDoneMessage(): Message {
    Message(SyncDone, None, None, map[], map[], false, [], None, [])
  }

  function UpdateMessage(ops: seq<Op>): Message {
    Message(Update, None, None, map[], map[], false, [], None, ops)
  }

  function AuthMessage(auth: Option<Token>): Message {
    Message(AuthUpdate, None, auth, map[], map[], false, [], None, [])
  }

  /** One call of the transport: `send(uid, message)` or `broadcast(message)`. */
  datatype Envelope = Send(to: PeerId, message: Message) | Broadcast(message: Message)

  /** What flushing the broadcast buffer sends (src/Connector.js:235-243): one
      "update" carrying the whole buffer, or nothing for an empty buffer. */
  function FlushSends(buffer: seq<Op>): (r: seq<Envelope>)
    ensures |r| <= 1
    ensures r == [] <==> buffer == []
    ensures r != [] ==> r[0].Broadcast? && r[0].message.msgType == Update && r[0].message.ops == buffer
    ensures buffer != [] ==> r == [Broadcast(UpdateMessage(buffer))]
  {
    if buffer == [] then [] else [Broadcast(UpdateMessage(buffer))]
  }

  /** A role as the source compares it: "master", "slave", or any other
      value, which no comparison singles out. */
  datatype Role = Master | Slave | OtherRole

  /** The record `connections[user]`: its `auth` is the memoised permission
      and `syncStep2` names its deferred. */
  datatype Connection = Connection(isSynced: bool, role: Role, auth: Option<Permission>, syncStep2: DeferId)

  /** What every registered user-event listener receives. */
  datatype UserEvent =
    | Joined(user: PeerId, role: Role)            // action 'userJoined'
    | Left(user: PeerId)                          // action 'userLeft'
    | Authenticated(user: PeerId, auth: Permission) // action 'userAuthenticated'

  /** A transaction handed to the replica store with `requestTransaction`. */
  datatype Transaction =
    | SendStateSet(target: PeerId)                     // src/Connector.js:186-200
    | MarkSynced                                       // src/Connector.js:203-215
    | AnswerStateSet(sender: PeerId, request: Message) // src/Connector.js:305-341
    | ApplyOps(message: Message)                       // src/Connector.js:348-356
    | ApplyDeleteSet(deleteSet: DeleteSet)             // src/Connector.js:359-361

  /** A callback waiting on `whenTransactionsFinished()`. */
  datatype WhenFinished =
    | FlushBroadcast                                               // src/Connector.js:235-246
    | ApplyDeleteSetAndResolve(deleteSet: DeleteSet, defer: DeferId) // src/Connector.js:358-363

  /** A callback waiting on `syncStep2` deferreds. */
  datatype Continuation =
    | AnswerWhenResolved(waitFor: set<DeferId>, sender: PeerId, request: Message) // src/Connector.js:295-304
    | SetSyncedWhenResolved(defer: DeferId, sender: PeerId)                      // src/Connector.js:367-369

  predicate Ready(c: Continuation, resolved: set<DeferId>) {
    match c
    case AnswerWhenResolved(waitFor, _, _) => waitFor <= resolved
    case SetSyncedWhenResolved(d, _) => d in resolved
  }

  /** A pending `setTimeout` that ends a peer's relay window. */
  datatype Timer = SyncingTimer(client: PeerId, delayMs: nat)

  /** A call into the replica store whose effect is not modelled. */
  datatype StoreCall =
    | StoreApplyUntransformed(os: seq<Op>, stateSet: StateSet)
    | StoreApply(os: seq<Op>)
    | StoreApplyDeleteSet(deleteSet: DeleteSet)
    | DbApply(ops: seq<Op>)
    | DbSetUserId(userId: PeerId)
    | DbStopGarbageCollector

  /** What a transaction reads from the replica store: `getStateSet`,
      `getDeleteSet`, `getOperations` and `getOperationsUntransformed`. */
  datatype StoreView = StoreView(
    stateSet: StateSet,
    deleteSet: DeleteSet,
    opsSince: StateSet -> seq<Op>,
    untransformed: seq<Op>)

  predicate NoDuplicates(s: seq<PeerId>) {
    s == [] || (s[0] !in s[1..] && NoDuplicates(s[1..]))
  }

  /** Appending a new element keeps the elements distinct. */
  lemma {:induction false} NoDuplicatesAppend(s: seq<PeerId>, x: PeerId)
    requires NoDuplicates(s) && x !in s
    ensures NoDuplicates(s + [x])
  {
    if s != [] {
      assert (s + [x])[1..] == s[1..] + [x];
      NoDuplicatesAppend(s[1..], x);
    }
  }

  // ---------------------------------------------------------------------
  // Sync target selection (src/Connector.js:176-182)

  /** The position of the first peer, in insertion order, that is not synced;
      |order| when every peer is synced. */
  function FirstUnsyncedIndex(order: seq<PeerId>, conns: map<PeerId, Connection>): (k: nat)
    requires forall p :: p in order ==> p in conns
    ensures k <= |order|
    ensures forall j :: 0 <= j < k ==> conns[order[j]].isSynced
    ensures k < |order| ==> !conns[order[k]].isSynced
    decreases |order|
  {
    if order == [] then 0
    else if !conns[order[0]].isSynced then 0
    else 1 + FirstUnsyncedIndex(order[1..], conns)
  }

  /** The peer `findNextSyncTarget` picks when no sync is in progress. */
  function NextSyncTarget(order: seq<PeerId>, conns: map<PeerId, Connection>): (r: Option<PeerId>)
    requires forall p :: p in order ==> p in conns
    ensures r.Some? ==> r.value in order && !conns[r.value].isSynced
    ensures r.Some? ==> exists k :: 0 <= k < |order| && order[k] == r.value &&
                          forall i :: 0 <= i < k ==> conns[order[i]].isSynced
    ensures r.None? <==> forall p :: p in order ==> conns[p].isSynced
  {
    var k := FirstUnsyncedIndex(order, conns);
    if k < |order| then
      Some(order[k])
    else
      assert forall p :: p in order ==> conns[p].isSynced by {
        forall p | p in order ensures conns[p].isSynced {
          var j :| 0 <= j < |order| && order[j] == p;
        }
      }
      None
  }

  /** The transaction `findNextSyncTarget` requests when no sync is in progress:
      a state offer to the new target, or, with no unsynced peer left and the
      connector not yet synced, the transaction that marks it synced. */
  function ScheduledWork(order: seq<PeerId>, conns: map<PeerId, Connection>, synced: bool): (r: seq<Transaction>)
    requires forall p :: p in order ==> p in conns
    ensures |r| <= 1
    ensures r == [] <==> synced && forall p :: p in order ==> conns[p].isSynced
    ensures r != [] && r[0].SendStateSet? ==> r[0].target in order && !conns[r[0].target].isSynced
    ensures r != [] && r[0].SendStateSet? ==> NextSyncTarget(order, conns) == Some(r[0].target)
    ensures NextSyncTarget(order, conns).Some? ==> r != [] && r[0].SendStateSet?
    ensures r == [MarkSynced] <==> !synced && forall p :: p in order ==> conns[p].isSynced
  {
    match NextSyncTarget(order, conns)
    case Some(u) => [SendStateSet(u)]
    case None => if synced then [] else [MarkSynced]
  }

  /** A peer appended behind peers that are all synced is the next sync
      target: a join while no sync is in progress targets the new peer. */
  lemma NextTargetAfterJoin(order: seq<PeerId>, conns: map<PeerId, Connection>, user: PeerId)
    requires forall p :: p in order ==> p in conns && conns[p].isSynced
    requires user in conns && !conns[user].isSynced
    ensures NextSyncTarget(order + [user], conns) == Some(user)
  {
  }

  // ---------------------------------------------------------------------
  // Filtering (src/Connector.js:125-127, 329-331, 377-379)

  /** `s.filter(cli => cli !== x)`. */
  function Without(s: seq<PeerId>, x: PeerId): (r: seq<PeerId>)
    ensures forall y :: y in r <==> y in s && y != x
    ensures |r| <= |s|
    ensures x !in s ==> r == s
    ensures NoDuplicates(s) ==> NoDuplicates(r)
  {
    if s == [] then []
    else if s[0] == x then Without(s[1..], x)
    else
      var rest := Without(s[1..], x);
      assert ([s[0]] + rest)[1..] == rest;
      [s[0]] + rest
  }

  /** The filter keeps order: filtering a concatenation concatenates the
      filtered parts. */
  lemma {:induction false} WithoutAppend(a: seq<PeerId>, b: seq<PeerId>, x: PeerId)
    ensures Without(a + b, x) == Without(a, x) + Without(b, x)
    decreases |a|
  {
    if a == [] {
      assert a + b == b;
    } else {
      assert (a + b)[1..] == a[1..] + b;
      WithoutAppend(a[1..], b, x);
    }
  }

  /** Together with WithoutAppend this pins the filter down: `x` is dropped
      and every other element kept. */
  lemma WithoutSingle(y: PeerId, x: PeerId)
    ensures Without([y], x) == if y == x then [] else [y]
  {
  }

  predicate IsDelete(o: Op) {
    o.struct == "Delete"
  }

  /** `ops.filter(o => o.struct === 'Delete')`. */
  function DeleteOps(ops: seq<Op>): (r: seq<Op>)
    ensures forall o :: o in r <==> o in ops && IsDelete(o)
    ensures |r| <= |ops|
  {
    if ops == [] then []
    else if IsDelete(ops[0]) then [ops[0]] + DeleteOps(ops[1..])
    else DeleteOps(ops[1..])
  }

  /** The filter keeps order: filtering a concatenation concatenates the
      filtered parts. */
  lemma {:induction false} DeleteOpsAppend(a: seq<Op>, b: seq<Op>)
    ensures DeleteOps(a + b) == DeleteOps(a) + DeleteOps(b)
    decreases |a|
  {
    if a == [] {
      assert a + b == b;
    } else {
      assert (a + b)[1..] == a[1..] + b;
      DeleteOpsAppend(a[1..], b);
    }
  }

  /** Together with DeleteOpsAppend this pins the filter down: a delete is kept
      and any other op dropped. */
  lemma DeleteOpsSingle(o: Op)
    ensures DeleteOps([o]) == if IsDelete(o) then [o] else []
  {
  }

  /** The sends of `for (client of clients) send(client, m)`. */
  function Forwarded(clients: seq<PeerId>, m: Message): (r: seq<Envelope>)
    ensures |r| == |clients|
    ensures forall i :: 0 <= i < |clients| ==> r[i] == Send(clients[i], m)
  {
    seq(|clients|, i requires 0 <= i < |clients| => Send(clients[i], m))
  }

  /** `ops.map(op => Y.Struct[op.struct].encode(op))`, with the codec as a
      parameter. */
  function EncodeAll(encode: Op -> Op, ops: seq<Op>): (r: seq<Op>)
    ensures |r| == |ops|
    ensures forall i :: 0 <= i < |ops| ==> r[i] == encode(ops[i])
  {
    seq(|ops|, i requires 0 <= i < |ops| => encode(ops[i]))
  }

  lemma EncodeAllAppend(encode: Op -> Op, a: seq<Op>, b: seq<Op>)
    ensures EncodeAll(encode, a + b) == EncodeAll(encode, a) + EncodeAll(encode, b)
  {
  }

  /** The deferreds of every registered master: what a slave waits for
      before answering a state offer (src/Connector.js:295-300). */
  function MasterDefers(conns: map<PeerId, Connection>): (ds: set<DeferId>)
    ensures forall p :: p in conns && conns[p].role == Master ==> conns[p].syncStep2 in ds
    ensures forall d :: d in ds ==> exists p :: p in conns && conns[p].role == Master && conns[p].syncStep2 == d
  {
    set p | p in conns && conns[p].role == Master :: conns[p].syncStep2
  }

  // ---------------------------------------------------------------------
  // Message dispatch (src/Connector.js:260, 291-385)

  /** The version check of `receiveMessage`: any message that carries a
      protocol version other than ours, whatever its type. */
  predicate VersionMismatch(m: Message) {
    m.protocolVersion.Some? && m.protocolVersion.value != ProtocolVersion
  }

  /** The version check refuses only a version that is present and differs:
      a peer that sends none passes, and so does every message this connector
      builds, with a version or without. */
  lemma VersionCheckScope(m: Message, v: int, request: Message, store: StoreView, authInfo: Option<Token>, prefer: bool, ops: seq<Op>)
    ensures m.protocolVersion.None? ==> !VersionMismatch(m)
    ensures v != ProtocolVersion <==> VersionMismatch(m.(protocolVersion := Some(v)))
    ensures !VersionMismatch(StateOffer(store, authInfo, prefer)) && !VersionMismatch(StateSetAnswer(request, store, authInfo))
    ensures !VersionMismatch(SyncDoneMessage()) && !VersionMismatch(SyncStopMessage())
    ensures !VersionMismatch(UpdateMessage(ops)) && !VersionMismatch(AuthMessage(authInfo))
  {
  }

  datatype Handler = HandleSyncStep1 | HandleSyncStep2 | HandleSyncDone | HandleUpdate | Unhandled

  /** Which branch of the auth-gated dispatch a message of this type takes
      under this permission. */
  function Gate(msgType: MessageType, auth: Permission): (h: Handler)
    ensures h == HandleSyncStep1 <==> msgType == SyncStep1 && CanRead(auth)
    ensures h == HandleSyncStep2 <==> msgType == SyncStep2 && CanWrite(auth)
    ensures h == HandleSyncDone <==> msgType == SyncDone
    ensures h == HandleUpdate <==> msgType == Update && CanWrite(auth)
  {
    if msgType == SyncStep1 && CanRead(auth) then HandleSyncStep1
    else if msgType == SyncStep2 && CanWrite(auth) then HandleSyncStep2
    else if msgType == SyncDone then HandleSyncDone
    else if msgType == Update && CanWrite(auth) then HandleUpdate
    else Unhandled
  }

  /** Raising a peer's permission never turns a handled message into a
      dropped one nor changes how it is handled. */
  lemma GateMonotone(msgType: MessageType, a: Permission, b: Permission)
    requires Level(a) <= Level(b)
    requires Gate(msgType, a) != Unhandled
    ensures Gate(msgType, b) == Gate(msgType, a)
  {
  }

  /** Without read access nothing but "sync done" is handled. */
  lemma GateWithoutAccess(msgType: MessageType, a: Permission)
    requires !CanRead(a)
    ensures Gate(msgType, a) == (if msgType == SyncDone then HandleSyncDone else Unhandled)
  {
  }

  // ---------------------------------------------------------------------
  // Handshake messages (src/Connector.js:189-198, 313-324)

  /** The state offer of `findNextSyncTarget`. */
  function StateOffer(store: StoreView, authInfo: Option<Token>, preferUntransformed: bool): (offer: Message)
    ensures offer.msgType == SyncStep1 && offer.protocolVersion == Some(ProtocolVersion)
    ensures offer.stateSet == store.stateSet && offer.auth == authInfo
    ensures offer.preferUntransformed <==> preferUntransformed && |store.stateSet| == 0
  {
    SyncStep1Message(store.stateSet, authInfo, preferUntransformed && |store.stateSet| == 0)
  }

  predicate WantsUntransformed(request: Message) {
    request.preferUntransformed && |request.stateSet| == 0
  }

  /** An offer asks for the untransformed operations only when the offering
      store is empty, and the answer to it carries them exactly then. */
  lemma UntransformedOnlyWhenEmpty(store: StoreView, other: StoreView, authInfo: Option<Token>, prefer: bool)
    ensures WantsUntransformed(StateOffer(store, authInfo, prefer)) <==> prefer && |store.stateSet| == 0
    ensures StateSetAnswer(StateOffer(store, authInfo, prefer), other, authInfo).osUntransformed.Some?
      <==> prefer && |store.stateSet| == 0
  {
  }

  /** The answer to a state offer, carrying the connector's own protocol
      version and auth token. */
  function StateSetAnswer(request: Message, store: StoreView, authInfo: Option<Token>): (answer: Message)
    ensures answer.msgType == SyncStep2
    ensures answer.protocolVersion == Some(ProtocolVersion) && answer.auth == authInfo
    ensures answer.stateSet == store.stateSet && answer.deleteSet == store.deleteSet
    ensures WantsUntransformed(request) ==> answer.osUntransformed == Some(store.untransformed) && answer.os == []
    ensures !WantsUntransformed(request) ==> answer.osUntransformed.None? && answer.os == store.opsSince(request.stateSet)
  {
    var base := Message(SyncStep2, Some(ProtocolVersion), authInfo, store.stateSet, store.deleteSet, false, [], None, []);
    if WantsUntransformed(request) then base.(osUntransformed := Some(store.untransformed))
    else base.(os := store.opsSince(request.stateSet))
  }

  /** What answering a state offer sends: the answer, then "sync done" at once
      unless the peer is relayed updates for a while first. */
  function AnswerSends(sender: PeerId, answer: Message, relay: bool): (r: seq<Envelope>)
    ensures |r| == if relay then 1 else 2
    ensures r[0] == Send(sender, answer)
    ensures !relay ==> r[1] == Send(sender, SyncDoneMessage())
  {
    [Send(sender, answer)] + if relay then [] else [Send(sender, SyncDoneMessage())]
  }

  /** Both handshake messages pass the version check at a peer on the same
      protocol, and are handled there by the gate's step 1 and step 2
      branches under read and write access respectively. */
  lemma HandshakeAccepted(request: Message, store: StoreView, authInfo: Option<Token>, prefer: bool)
    ensures var offer := StateOffer(store, authInfo, prefer);
      !VersionMismatch(offer) && Gate(offer.msgType, Read) == HandleSyncStep1
    ensures var answer := StateSetAnswer(request, store, authInfo);
      !VersionMismatch(answer) && Gate(answer.msgType, Write) == HandleSyncStep2
      && Gate(answer.msgType, Read) == Unhandled
  {
  }

  // ---------------------------------------------------------------------
  // The answer transaction as written (src/Connector.js:313-326)

  /** The fields the answer transaction reads through `this`, which inside a
      generator run by `requestTransaction` is the replica store's transaction
      object rather than the connector. */
  datatype TransactionObject = TransactionObject(
    protocolVersion: Option<int>,
    authInfo: Option<Token>,
    forwardToSyncingClients: bool)

  /** The answer as the source builds it: version and auth taken from the
      transaction object. */
  function StateSetAnswerAsWritten(request: Message, store: StoreView, tx: TransactionObject): (answer: Message)
    ensures answer.protocolVersion == tx.protocolVersion && answer.auth == tx.authInfo
    ensures answer.msgType == SyncStep2 && answer.stateSet == store.stateSet
  {
    var base := Message(SyncStep2, tx.protocolVersion, tx.authInfo, store.stateSet, store.deleteSet, false, [], None, []);
    if WantsUntransformed(request) then base.(osUntransformed := Some(store.untransformed))
    else base.(os := store.opsSince(request.stateSet))
  }

  /** What the answer transaction sends as written: the answer built from the
      transaction object, and "sync done" at once unless that object's
      `forwardToSyncingClients` is set. */
  function AnswerSendsAsWritten(sender: PeerId, request: Message, store: StoreView, tx: TransactionObject): seq<Envelope> {
    AnswerSends(sender, StateSetAnswerAsWritten(request, store, tx), tx.forwardToSyncingClients)
  }

  /** With a transaction object that has none of these fields, a connector
      configured with an auth token and with forwarding on (its default) sends
      an answer without version or token, sends "sync done" at once and never
      relays: the corrected answer differs on all three. */
  lemma AsWrittenAnswerIgnoresConnector(sender: PeerId, request: Message, store: StoreView)
    ensures var tx := TransactionObject(None, None, false);
      var written := StateSetAnswerAsWritten(request, store, tx);
      var intended := StateSetAnswer(request, store, Some("token"));
      && written.protocolVersion.None? && intended.protocolVersion == Some(ProtocolVersion)
      && written.auth.None? && intended.auth == Some("token")
      && AnswerSendsAsWritten(sender, request, store, tx) == [Send(sender, written), Send(sender, SyncDoneMessage())]
      && AnswerSends(sender, intended, true) == [Send(sender, intended)]
  {
  }
}
