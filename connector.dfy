/** The `AbstractConnector` class of src/Connector.js: the peer registry, the
    sync-target scheduler, the auth-gated dispatch of incoming messages and
    the buffered broadcast of local operations.

    The transport, the replica store and the promises the source chains are
    modelled as explicit state: `outbox` records every `send`/`broadcast`,
    `transactions` holds the store transactions not yet run, `whenFinished`
    the callbacks waiting for the transaction queue to drain,
    `continuations` the callbacks waiting on `syncStep2` deferreds, and
    `timers` the pending relay timers. The environment advances this state
    with the Run* methods (one per kind of transaction), TransactionsFinished,
    RunContinuation and SyncingClientExpired. */
module Connector {
  import opened Wrappers
  import opened Permissions
  import opened Protocol

  /** The constructor's `opts`; an omitted option holds None (or false for
      the two options read with `|| false`). */
  datatype Options = Options(
    role: Option<Role>,
    preferUntransformed: bool,
    forwardAppliedOperations: bool,
    forwardToSyncingClients: Option<bool>,
    auth: Option<Token>,
    checkAuth: Option<Option<Token> -> Permission>,
    generateUserId: Option<bool>)

  datatype ConnectorError =
    | InvalidRole                  // "Role must be either 'master' or 'slave'!"
    | RoleRequired                 // "You must specify the role of the joined user!"
    | AlreadyJoined                // "This user already joined!"
    | IncompatibleProtocolVersion  // "Incompatible protocol version"
    | UnableToDeliver              // "Unable to deliver message"

  /** What the promise returned by `receiveMessage` does: resolve at once
      (a message from ourselves), follow the auth-gated handler, or reject. */
  datatype Reply = Ignored | Dispatched | Rejected(error: ConnectorError)

  /** The role check of the constructor (src/Connector.js:43-49). */
  predicate RoleAccepted(role: Option<Role>) {
    role != Some(OtherRole)
  }

  /** Exactly an omitted role, "master" and "slave" pass the check. */
  lemma AcceptedRoles(role: Option<Role>)
    ensures RoleAccepted(role) <==> role == None || role == Some(Master) || role == Some(Slave)
  {
    match role
    case None =>
    case Some(r) => assert r == Master || r == Slave || r == OtherRole;
  }

  class AbstractConnector {
    // Configuration, fixed by the constructor.
    /** `this.role` after src/Connector.js:53 overwrote the checked value with
        `opts.role`: None when the option was omitted. */
    const role: Option<Role>
    const preferUntransformed: bool
    const forwardAppliedOperations: bool
    const forwardToSyncingClients: bool
    const checkAuth: Option<Token> -> Permission
    /** `Y.Struct[op.struct].encode`. */
    const encode: Op -> Op

    // The connector's own state.
    var userId: Option<PeerId>
    var authInfo: Option<Token>
    /** The keys of `connections` in insertion order. */
    var peers: seq<PeerId>
    var connections: map<PeerId, Connection>
    var isSynced: bool
    var whenSyncedListeners: seq<Listener>
    var currentSyncTarget: Option<PeerId>
    var syncingClients: seq<PeerId>
    var broadcastOpBuffer: seq<Op>

    // The collaborators, as records of calls and pending work.
    var outbox: seq<Envelope>
    var userEvents: seq<UserEvent>
    var firedListeners: seq<Listener>
    var storeLog: seq<StoreCall>
    var transactions: seq<Transaction>
    var whenFinished: seq<WhenFinished>
    var continuations: seq<Continuation>
    var timers: seq<Timer>
    var resolved: set<DeferId>
    var nextDefer: DeferId

    /** `peers` lists each key of `connections` once, and every connection's
        deferred was issued by the counter. */
    ghost predicate Registry()
      reads this`peers, this`connections, this`nextDefer
    {
      && NoDuplicates(peers)
      && (forall p :: p in peers <==> p in connections)
      && (forall p :: p in connections ==> connections[p].syncStep2 < nextDefer)
    }

    /** Every deferred resolved or about to be resolved was issued. */
    ghost predicate DeferredsIssued()
      reads this`resolved, this`whenFinished, this`nextDefer
    {
      && (forall d :: d in resolved ==> d < nextDefer)
      && (forall i :: 0 <= i < |whenFinished| && whenFinished[i].ApplyDeleteSetAndResolve? ==>
            whenFinished[i].defer < nextDefer)
    }

    /** A non-empty broadcast buffer always has a flush scheduled. */
    ghost predicate FlushScheduled()
      reads this`broadcastOpBuffer, this`whenFinished
    {
      |broadcastOpBuffer| > 0 ==> FlushBroadcast in whenFinished
    }

    /** Listeners wait only while the connector is not synced. */
    ghost predicate ListenersWaiting()
      reads this`isSynced, this`whenSyncedListeners
    {
      isSynced ==> whenSyncedListeners == []
    }

    ghost predicate Consistent()
      reads this`peers, this`connections, this`nextDefer, this`resolved, this`whenFinished,
            this`broadcastOpBuffer, this`isSynced, this`whenSyncedListeners
    {
      Registry() && DeferredsIssued() && FlushScheduled() && ListenersWaiting()
    }

    /** The sync target is a registered peer not yet synced, and there is no
        sync target only when every registered peer is synced. */
    ghost predicate SyncTargetInvariant()
      reads this`currentSyncTarget, this`connections
    {
      match currentSyncTarget
      case Some(t) => t in connections && !connections[t].isSynced
      case None => forall p :: p in connections ==> connections[p].isSynced
    }

    /** The class invariant. Methods that write none of the fields it reads
        keep it by framing alone and do not restate it. */
    ghost predicate Valid()
      reads this`peers, this`connections, this`nextDefer, this`resolved, this`whenFinished,
            this`broadcastOpBuffer, this`isSynced, this`whenSyncedListeners, this`currentSyncTarget
    {
      Consistent() && SyncTargetInvariant()
    }

    /** The constructor for an accepted role; Create handles the other roles. */
    constructor (opts: Options, guid: PeerId, encode: Op -> Op)
      requires RoleAccepted(opts.role)
      ensures Valid()
      ensures role == opts.role
      ensures preferUntransformed == opts.preferUntransformed
      ensures forwardAppliedOperations == opts.forwardAppliedOperations
      ensures forwardToSyncingClients == (opts.forwardToSyncingClients != Some(false))
      ensures authInfo == if opts.auth == Some("") then None else opts.auth
      ensures opts.checkAuth.Some? ==> checkAuth == opts.checkAuth.value
      ensures opts.checkAuth.None? ==> forall t :: checkAuth(t) == Write
      ensures this.encode == encode
      ensures userId == if opts.generateUserId == Some(false) then None else Some(guid)
      ensures storeLog == if opts.generateUserId == Some(false) then [] else [DbSetUserId(guid)]
      ensures peers == [] && connections == map[] && !isSynced && currentSyncTarget.None?
      ensures whenSyncedListeners == [] && syncingClients == [] && broadcastOpBuffer == []
      ensures outbox == [] && userEvents == [] && firedListeners == []
      ensures transactions == [] && whenFinished == [] && continuations == [] && timers == []
      ensures resolved == {} && nextDefer == 0
    {
      role := opts.role;
      preferUntransformed := opts.preferUntransformed;
      forwardAppliedOperations := opts.forwardAppliedOperations;
      forwardToSyncingClients := opts.forwardToSyncingClients != Some(false);
      var everyoneWrites: Option<Token> -> Permission := _ => Write;
      var chosen: Option<Token> -> Permission := if opts.checkAuth.Some? then opts.checkAuth.value else everyoneWrites;
      checkAuth := chosen;
      this.encode := encode;
      authInfo := if opts.auth == Some("") then None else opts.auth;
      peers, connections, isSynced := [], map[], false;
      whenSyncedListeners, currentSyncTarget, syncingClients := [], None, [];
      broadcastOpBuffer := [];
      outbox, userEvents, firedListeners := [], [], [];
      transactions, whenFinished, continuations, timers := [], [], [], [];
      resolved, nextDefer := {}, 0;
      if opts.generateUserId != Some(false) {
        userId := Some(guid);
        storeLog := [DbSetUserId(guid)];
      } else {
        userId := None;
        storeLog := [];
      }
    }

    /** `new AbstractConnector(y, opts)`: throws on a role other than
        "master" or "slave"; `guid` stands for `Y.utils.generateGuid()`. */
    static method Create(opts: Options, guid: PeerId, encode: Op -> Op) returns (r: Result<AbstractConnector, ConnectorError>)
      ensures r.Failure? <==> !RoleAccepted(opts.role)
      ensures r.Failure? ==> r.error == InvalidRole
      ensures r.Success? ==> fresh(r.value) && r.value.Valid() && r.value.role == opts.role
      ensures r.Success? ==> r.value.peers == [] && r.value.outbox == [] && !r.value.isSynced
    {
      if !RoleAccepted(opts.role) {
        return Failure(InvalidRole);
      }
      var c := new AbstractConnector(opts, guid, encode);
      return Success(c);
    }

    /** `setUserId`: the id is set once only. */
    method SetUserId(id: PeerId) returns (accepted: bool)
      modifies this`userId, this`storeLog
      ensures accepted <==> old(userId).None?
      ensures userId == if accepted then Some(id) else old(userId)
      ensures storeLog == old(storeLog) + if accepted then [DbSetUserId(id)] else []
    {
      if userId.None? {
        userId := Some(id);
        storeLog := storeLog + [DbSetUserId(id)];
        accepted := true;
      } else {
        accepted := false;
      }
    }

    /** `resetAuth`: broadcasts the token only when it changes. */
    method ResetAuth(auth: Option<Token>)
      modifies this`authInfo, this`outbox
      ensures authInfo == auth
      ensures outbox == old(outbox) + if old(authInfo) != auth then [Broadcast(AuthMessage(auth))] else []
    {
      if authInfo != auth {
        authInfo := auth;
        outbox := outbox + [Broadcast(AuthMessage(auth))];
      }
    }

    /** `disconnect`: forgets every peer and the synced state; pending work
        and the broadcast buffer are kept. */
    method Disconnect()
      requires Valid()
      modifies this`peers, this`connections, this`isSynced, this`currentSyncTarget,
               this`syncingClients, this`whenSyncedListeners, this`storeLog
      ensures Valid()
      ensures peers == [] && connections == map[] && !isSynced && currentSyncTarget.None?
      ensures syncingClients == [] && whenSyncedListeners == []
      ensures storeLog == old(storeLog) + [DbStopGarbageCollector]
    {
      peers, connections := [], map[];
      isSynced := false;
      currentSyncTarget := None;
      syncingClients := [];
      whenSyncedListeners := [];
      storeLog := storeLog + [DbStopGarbageCollector];
    }

    /** The loop of `repair` (src/Connector.js:95-97). */
    method MarkAllUnsynced()
      requires Consistent()
      modifies this`connections
      ensures Consistent()
      ensures connections == map p | p in old(connections) :: old(connections)[p].(isSynced := false)
    {
      var i := 0;
      while i < |peers|
        invariant 0 <= i <= |peers|
        invariant connections.Keys == old(connections).Keys
        invariant forall p :: p in connections ==>
          connections[p] == if p in peers[..i] then old(connections)[p].(isSynced := false) else old(connections)[p]
      {
        var name := peers[i];
        connections := connections[name := connections[name].(isSynced := false)];
        assert peers[..i + 1] == peers[..i] + [name];
        i := i + 1;
      }
      assert peers[..i] == peers;
    }

    /** `repair`: every peer becomes unsynced and the first one in insertion
        order becomes the sync target. */
    method Repair()
      requires Valid()
      modifies this`connections, this`isSynced, this`currentSyncTarget, this`transactions
      ensures Valid()
      ensures connections == map p | p in old(connections) :: old(connections)[p].(isSynced := false)
      ensures !isSynced
      ensures currentSyncTarget == if |peers| > 0 then Some(peers[0]) else None
      ensures transactions == old(transactions) + if |peers| > 0 then [SendStateSet(peers[0])] else [MarkSynced]
    {
      MarkAllUnsynced();
      isSynced := false;
      currentSyncTarget := None;
      FindNextSyncTarget();
      if |peers| > 0 {
        assert !connections[peers[0]].isSynced;
      }
    }

    /** The scan of `findNextSyncTarget` (src/Connector.js:176-182): the
        position of the first unsynced peer in insertion order. */
    method FindFirstUnsynced() returns (k: nat)
      requires Consistent()
      ensures k <= |peers|
      ensures forall j :: 0 <= j < k ==> connections[peers[j]].isSynced
      ensures k < |peers| ==> !connections[peers[k]].isSynced
      ensures k == FirstUnsyncedIndex(peers, connections)
    {
      k := 0;
      while k < |peers|
        invariant k <= |peers|
        invariant forall j :: 0 <= j < k ==> connections[peers[j]].isSynced
      {
        if !connections[peers[k]].isSynced {
          break;
        }
        k := k + 1;
      }
    }

    /** `findNextSyncTarget`: does nothing while a sync is in progress;
        otherwise picks the first unsynced peer and requests the transaction
        that sends it the state offer, or, with every peer synced, requests
        the transaction that marks the connector synced. */
    method FindNextSyncTarget()
      requires Consistent()
      requires currentSyncTarget.Some? ==>
        currentSyncTarget.value in connections && !connections[currentSyncTarget.value].isSynced
      modifies this`currentSyncTarget, this`transactions
      ensures Valid()
      ensures old(currentSyncTarget).Some? ==>
        currentSyncTarget == old(currentSyncTarget) && transactions == old(transactions)
      ensures old(currentSyncTarget).None? ==>
        && currentSyncTarget == NextSyncTarget(peers, connections)
        && transactions == old(transactions) + ScheduledWork(peers, connections, isSynced)
    {
      if currentSyncTarget.Some? {
        return;
      }
      var k := FindFirstUnsynced();
      if k < |peers| {
        var syncUser := peers[k];
        currentSyncTarget := Some(syncUser);
        transactions := transactions + [SendStateSet(syncUser)];
      } else {
        if !isSynced {
          transactions := transactions + [MarkSynced];
        }
        forall p | p in connections ensures connections[p].isSynced {
          var j :| 0 <= j < |peers| && peers[j] == p;
        }
      }
    }

    /** The record of `user` is gone, it has left the peer and relay lists,
        and a "userLeft" event was emitted. */
    twostate predicate Forgotten(user: PeerId)
      reads this`peers, this`connections, this`syncingClients, this`userEvents
    {
      && connections == old(connections) - {user}
      && peers == Without(old(peers), user)
      && syncingClients == Without(old(syncingClients), user)
      && userEvents == old(userEvents) + [Left(user)]
    }

    /** The parts of `userLeft` other than the choice of a new sync target
        (src/Connector.js:120, 125-133). */
    method ForgetUser(user: PeerId)
      requires Consistent() && user in connections
      modifies this`peers, this`connections, this`syncingClients, this`userEvents
      ensures Consistent()
      ensures Forgotten(user)
    {
      connections := connections - {user};
      peers := Without(peers, user);
      syncingClients := Without(syncingClients, user);
      userEvents := userEvents + [Left(user)];
    }

    /** `userLeft`: nothing for an unknown user; otherwise the record goes,
        the user leaves the relay set, and a sync with it is abandoned and
        the next target chosen. */
    method UserLeft(user: PeerId)
      requires Valid()
      modifies this`peers, this`connections, this`currentSyncTarget, this`transactions,
               this`syncingClients, this`userEvents
      ensures Valid()
      ensures user !in old(connections) ==> unchanged(this)
      ensures user in old(connections) ==> Forgotten(user)
      ensures user in old(connections) && old(currentSyncTarget) != Some(user) ==>
        currentSyncTarget == old(currentSyncTarget) && transactions == old(transactions)
      ensures user in old(connections) && old(currentSyncTarget) == Some(user) ==>
        && currentSyncTarget == NextSyncTarget(peers, connections)
        && transactions == old(transactions) + ScheduledWork(peers, connections, isSynced)
    {
      if user !in connections {
        return;
      }
      ForgetUser(user);
      if currentSyncTarget == Some(user) {
        currentSyncTarget := None;
        FindNextSyncTarget();
      }
    }

    /** Lines 148-155 of `userJoined`: an unknown user is registered unsynced
        with a fresh, unresolved deferred. */
    method AddConnection(user: PeerId, role: Role)
      requires Consistent() && user !in connections
      modifies this`peers, this`connections, this`nextDefer
      ensures Consistent()
      ensures peers == old(peers) + [user]
      ensures connections == old(connections)[user := Connection(false, role, None, old(nextDefer))]
      ensures old(nextDefer) !in resolved && nextDefer == old(nextDefer) + 1
    {
      NoDuplicatesAppend(peers, user);
      connections := connections[user := Connection(false, role, None, nextDefer)];
      peers := peers + [user];
      nextDefer := nextDefer + 1;
    }

    /** `userJoined`: throws without a role or for a registered user, leaving
        everything as it was; otherwise registers the user unsynced with a
        fresh, unresolved deferred and, when no sync is in progress, makes it
        the sync target. */
    method UserJoined(user: PeerId, role: Option<Role>) returns (r: Outcome<ConnectorError>)
      requires Valid()
      modifies this`peers, this`connections, this`nextDefer, this`userEvents,
               this`currentSyncTarget, this`transactions
      ensures Valid()
      ensures role.None? ==> r == Fail(RoleRequired) && unchanged(this)
      ensures role.Some? && user in old(connections) ==> r == Fail(AlreadyJoined) && unchanged(this)
      ensures role.Some? && user !in old(connections) ==>
        && r == Pass
        && peers == old(peers) + [user]
        && connections == old(connections)[user := Connection(false, role.value, None, old(nextDefer))]
        && old(nextDefer) !in resolved
        && nextDefer == old(nextDefer) + 1
        && userEvents == old(userEvents) + [Joined(user, role.value)]
      ensures role.Some? && user !in old(connections) && old(currentSyncTarget).Some? ==>
        currentSyncTarget == old(currentSyncTarget) && transactions == old(transactions)
      ensures role.Some? && user !in old(connections) && old(currentSyncTarget).None? ==>
        currentSyncTarget == Some(user) && transactions == old(transactions) + [SendStateSet(user)]
    {
      if role.None? {
        return Fail(RoleRequired);
      }
      if user in connections {
        return Fail(AlreadyJoined);
      }
      AddConnection(user, role.value);
      userEvents := userEvents + [Joined(user, role.value)];
      if currentSyncTarget.None? {
        NextTargetAfterJoin(old(peers), connections, user);
        FindNextSyncTarget();
      }
      return Pass;
    }

    /** `whenSynced`: runs the listener at once when synced, else queues it. */
    method WhenSynced(f: Listener)
      requires Valid()
      modifies this`firedListeners, this`whenSyncedListeners
      ensures Valid()
      ensures isSynced ==> firedListeners == old(firedListeners) + [f] && whenSyncedListeners == old(whenSyncedListeners)
      ensures !isSynced ==> firedListeners == old(firedListeners) && whenSyncedListeners == old(whenSyncedListeners) + [f]
    {
      if isSynced {
        firedListeners := firedListeners + [f];
      } else {
        whenSyncedListeners := whenSyncedListeners + [f];
      }
    }

    /** `_setSyncedWith`: marks a registered peer synced and, when it was the
        sync target, moves on to the next one. */
    method SetSyncedWith(user: PeerId)
      requires Valid()
      modifies this`connections, this`currentSyncTarget, this`transactions
      ensures Valid()
      ensures connections == if user in old(connections)
        then old(connections)[user := old(connections)[user].(isSynced := true)]
        else old(connections)
      ensures old(currentSyncTarget) != Some(user) ==>
        currentSyncTarget == old(currentSyncTarget) && transactions == old(transactions)
      ensures old(currentSyncTarget) == Some(user) ==>
        && currentSyncTarget == NextSyncTarget(peers, connections)
        && transactions == old(transactions) + ScheduledWork(peers, connections, isSynced)
    {
      if user in connections {
        connections := connections[user := connections[user].(isSynced := true)];
      }
      if currentSyncTarget == Some(user) {
        currentSyncTarget := None;
        FindNextSyncTarget();
      }
    }

    /** `broadcastOps`: appends the encoded operations to the buffer and, when
        the buffer was empty, schedules the flush for when the transaction
        queue drains. */
    method BroadcastOps(ops: seq<Op>)
      requires Valid()
      modifies this`broadcastOpBuffer, this`whenFinished
      ensures Valid()
      ensures broadcastOpBuffer == old(broadcastOpBuffer) + EncodeAll(encode, ops)
      ensures whenFinished == old(whenFinished) + if old(broadcastOpBuffer) == [] then [FlushBroadcast] else []
    {
      var encoded := EncodeAll(encode, ops);
      if |broadcastOpBuffer| == 0 {
        broadcastOpBuffer := encoded;
        whenFinished := whenFinished + [FlushBroadcast];
      } else {
        broadcastOpBuffer := broadcastOpBuffer + encoded;
      }
    }

    /** The flush `broadcastOperations` (src/Connector.js:235-243): one
        "update" with the whole buffer, or nothing when it is empty. A step
        of TransactionsFinished, not an entry point of the connector. */
    method BroadcastOperations()
      modifies this`outbox, this`broadcastOpBuffer
      ensures broadcastOpBuffer == []
      ensures outbox == old(outbox) + FlushSends(old(broadcastOpBuffer))
    {
      if |broadcastOpBuffer| > 0 {
        outbox := outbox + [Broadcast(UpdateMessage(broadcastOpBuffer))];
        broadcastOpBuffer := [];
      }
    }

    /** The loop of the synced transaction (src/Connector.js:210-212). */
    method CallWhenSyncedListeners()
      modifies this`firedListeners
      ensures firedListeners == old(firedListeners) + whenSyncedListeners
    {
      for i := 0 to |whenSyncedListeners|
        invariant firedListeners == old(firedListeners) + whenSyncedListeners[..i]
      {
        firedListeners := firedListeners + [whenSyncedListeners[i]];
      }
    }

    /** The store runs the oldest requested transaction, the state offer of
        `findNextSyncTarget` (src/Connector.js:186-200); `store` is what it
        reads from the replica store. */
    method RunSendStateSet(store: StoreView)
      requires transactions != [] && transactions[0].SendStateSet?
      modifies this`transactions, this`outbox
      ensures transactions == old(transactions[1..])
      ensures outbox == old(outbox) + [Send(old(transactions[0]).target, StateOffer(store, authInfo, preferUntransformed))]
    {
      var syncUser := transactions[0].target;
      transactions := transactions[1..];
      outbox := outbox + [Send(syncUser, StateOffer(store, authInfo, preferUntransformed))];
    }

    /** The oldest transaction marks the connector synced
        (src/Connector.js:203-215): once only, running and then dropping the
        waiting listeners. */
    method RunMarkSynced()
      requires Valid()
      requires transactions != [] && transactions[0].MarkSynced?
      modifies this`transactions, this`isSynced, this`whenSyncedListeners, this`firedListeners
      ensures Valid()
      ensures transactions == old(transactions[1..])
      ensures isSynced && whenSyncedListeners == []
      ensures firedListeners == old(firedListeners) + old(whenSyncedListeners)
    {
      transactions := transactions[1..];
      if !isSynced {
        isSynced := true;
        CallWhenSyncedListeners();
        whenSyncedListeners := [];
      }
    }

    /** The oldest transaction answers a state offer (src/Connector.js:305-341):
        the answer, then either the sender joins the relay set with a timer
        that ends its relay, or it is sent "sync done" at once. */
    method RunAnswerStateSet(store: StoreView)
      requires transactions != [] && transactions[0].AnswerStateSet?
      modifies this`transactions, this`outbox, this`syncingClients, this`timers
      ensures transactions == old(transactions[1..])
      ensures var t := old(transactions[0]);
        && outbox == old(outbox) + AnswerSends(t.sender, StateSetAnswer(t.request, store, authInfo), forwardToSyncingClients)
        && syncingClients == old(syncingClients) + (if forwardToSyncingClients then [t.sender] else [])
        && timers == old(timers) + (if forwardToSyncingClients then [SyncingTimer(t.sender, SyncingClientTimeoutMs)] else [])
    {
      var sender, request := transactions[0].sender, transactions[0].request;
      transactions := transactions[1..];
      outbox := outbox + [Send(sender, StateSetAnswer(request, store, authInfo))];
      if forwardToSyncingClients {
        syncingClients := syncingClients + [sender];
        timers := timers + [SyncingTimer(sender, SyncingClientTimeoutMs)];
      } else {
        outbox := outbox + [Send(sender, SyncDoneMessage())];
      }
    }

    /** The oldest transaction applies the operations of a state answer
        (src/Connector.js:348-356): the untransformed ones when present. */
    method RunApplyOps()
      requires transactions != [] && transactions[0].ApplyOps?
      modifies this`transactions, this`storeLog
      ensures transactions == old(transactions[1..])
      ensures var m := old(transactions[0]).message;
        storeLog == old(storeLog) + [if m.osUntransformed.Some? then StoreApplyUntransformed(m.osUntransformed.value, m.stateSet) else StoreApply(m.os)]
    {
      var m := transactions[0].message;
      transactions := transactions[1..];
      if m.osUntransformed.Some? {
        storeLog := storeLog + [StoreApplyUntransformed(m.osUntransformed.value, m.stateSet)];
      } else {
        storeLog := storeLog + [StoreApply(m.os)];
      }
    }

    /** The oldest transaction applies the delete set of a state answer
        (src/Connector.js:358-361). */
    method RunApplyDeleteSet()
      requires transactions != [] && transactions[0].ApplyDeleteSet?
      modifies this`transactions, this`storeLog
      ensures transactions == old(transactions[1..])
      ensures storeLog == old(storeLog) + [StoreApplyDeleteSet(old(transactions[0]).deleteSet)]
    {
      var ds := transactions[0].deleteSet;
      transactions := transactions[1..];
      storeLog := storeLog + [StoreApplyDeleteSet(ds)];
    }

    /** One callback waiting on `whenTransactionsFinished()` runs: the flush
        of the broadcast buffer, or the request of a state answer's delete
        set followed by the resolution of its deferred
        (src/Connector.js:358-363). A step of TransactionsFinished, which
        passes only callbacks taken from `whenFinished`; not an entry point
        of the connector. */
    method RunFinishedCallback(cb: WhenFinished)
      modifies this`transactions, this`resolved, this`outbox, this`broadcastOpBuffer
      ensures cb.FlushBroadcast? ==>
        && broadcastOpBuffer == []
        && outbox == old(outbox) + FlushSends(old(broadcastOpBuffer))
        && transactions == old(transactions) && resolved == old(resolved)
      ensures cb.ApplyDeleteSetAndResolve? ==>
        && transactions == old(transactions) + [ApplyDeleteSet(cb.deleteSet)]
        && resolved == old(resolved) + {cb.defer}
        && outbox == old(outbox) && broadcastOpBuffer == old(broadcastOpBuffer)
    {
      match cb
      case FlushBroadcast =>
        BroadcastOperations();
      case ApplyDeleteSetAndResolve(ds, defer) =>
        transactions := transactions + [ApplyDeleteSet(ds)];
        resolved := resolved + {defer};
    }

    /** Runs a batch of drained callbacks one after another, in order. A step
        of TransactionsFinished, not an entry point of the connector. */
    method RunFinishedCallbacks(batch: seq<WhenFinished>)
      requires transactions == []
      modifies this`transactions, this`resolved, this`outbox, this`broadcastOpBuffer
      ensures transactions == DeleteSetTransactions(batch)
      ensures resolved == old(resolved) + ResolvedDefers(batch)
      ensures FlushBroadcast in batch ==>
        && broadcastOpBuffer == []
        && outbox == old(outbox) + FlushSends(old(broadcastOpBuffer))
      ensures FlushBroadcast !in batch ==>
        broadcastOpBuffer == old(broadcastOpBuffer) && outbox == old(outbox)
    {
      ghost var flushed := false;
      var i := 0;
      while i < |batch|
        invariant 0 <= i <= |batch|
        invariant flushed <==> FlushBroadcast in batch[..i]
        invariant transactions == DeleteSetTransactions(batch[..i])
        invariant resolved == old(resolved) + ResolvedDefers(batch[..i])
        invariant flushed ==> broadcastOpBuffer == [] && outbox == old(outbox) + FlushSends(old(broadcastOpBuffer))
        invariant !flushed ==> broadcastOpBuffer == old(broadcastOpBuffer) && outbox == old(outbox)
      {
        assert batch[..i + 1] == batch[..i] + [batch[i]];
        flushed := flushed || batch[i] == FlushBroadcast;
        RunFinishedCallback(batch[i]);
        i := i + 1;
      }
      assert batch[..i] == batch;
    }

    /** The transaction queue has drained: every callback waiting on
        `whenTransactionsFinished()` runs, in registration order. A delete set
        is thus applied only after every transaction requested before it,
        among them the one applying the same message's operations. */
    method TransactionsFinished()
      requires Valid()
      requires transactions == []
      modifies this`whenFinished, this`transactions, this`resolved, this`outbox, this`broadcastOpBuffer
      ensures Valid()
      ensures whenFinished == []
      ensures transactions == DeleteSetTransactions(old(whenFinished))
      ensures resolved == old(resolved) + ResolvedDefers(old(whenFinished))
      ensures FlushBroadcast in old(whenFinished) ==>
        && broadcastOpBuffer == []
        && outbox == old(outbox) + FlushSends(old(broadcastOpBuffer))
      ensures FlushBroadcast !in old(whenFinished) ==>
        broadcastOpBuffer == old(broadcastOpBuffer) == [] && outbox == old(outbox)
    {
      var batch := whenFinished;
      whenFinished := [];
      RunFinishedCallbacks(batch);
      ResolvedDefersIssued(batch, nextDefer);
    }

    /** A callback whose deferreds have all resolved runs: a state offer is
        answered by a transaction, a "sync done" marks its sender synced. */
    method RunContinuation(i: nat)
      requires Valid()
      requires i < |continuations| && Ready(continuations[i], resolved)
      modifies this`continuations, this`transactions, this`connections, this`currentSyncTarget
      ensures Valid()
      ensures continuations == old(continuations[..i] + continuations[i + 1..])
      ensures old(continuations[i]).AnswerWhenResolved? ==>
        && transactions == old(transactions) + [AnswerStateSet(old(continuations[i]).sender, old(continuations[i]).request)]
        && unchanged(this`connections, this`currentSyncTarget)
      ensures old(continuations[i]).SetSyncedWhenResolved? ==>
        var user := old(continuations[i]).sender;
        && connections == (if user in old(connections)
             then old(connections)[user := old(connections)[user].(isSynced := true)]
             else old(connections))
        && (old(currentSyncTarget) != Some(user) ==>
              currentSyncTarget == old(currentSyncTarget) && transactions == old(transactions))
        && (old(currentSyncTarget) == Some(user) ==>
              currentSyncTarget == NextSyncTarget(peers, connections) &&
              transactions == old(transactions) + ScheduledWork(peers, connections, isSynced))
    {
      var c := continuations[i];
      continuations := continuations[..i] + continuations[i + 1..];
      match c
      case AnswerWhenResolved(_, sender, request) =>
        transactions := transactions + [AnswerStateSet(sender, request)];
      case SetSyncedWhenResolved(_, sender) =>
        SetSyncedWith(sender);
    }

    /** The relay timer of a peer fires (src/Connector.js:328-335): it leaves
        the relay set and is sent "sync done". */
    method SyncingClientExpired(i: nat)
      requires i < |timers|
      modifies this`timers, this`syncingClients, this`outbox
      ensures timers == old(timers[..i] + timers[i + 1..])
      ensures syncingClients == Without(old(syncingClients), old(timers[i]).client)
      ensures outbox == old(outbox) + [Send(old(timers[i]).client, SyncDoneMessage())]
    {
      var client := timers[i].client;
      timers := timers[..i] + timers[i + 1..];
      syncingClients := Without(syncingClients, client);
      outbox := outbox + [Send(client, SyncDoneMessage())];
    }

    /** The relay loop of an "update" (src/Connector.js:372-374). */
    method ForwardToSyncingClients(m: Message)
      modifies this`outbox
      ensures outbox == old(outbox) + Forwarded(syncingClients, m)
    {
      for i := 0 to |syncingClients|
        invariant outbox == old(outbox) + Forwarded(syncingClients[..i], m)
      {
        outbox := outbox + [Send(syncingClients[i], m)];
      }
      assert syncingClients[..|syncingClients|] == syncingClients;
    }

    /** A state offer waits, at a slave, for the deferreds of every
        registered master and is then answered; nothing else changes. */
    twostate predicate OfferQueued(sender: PeerId, m: Message)
      reads this
    {
      && continuations == old(continuations)
           + [AnswerWhenResolved(if role == Some(Slave) then MasterDefers(connections) else {}, sender, m)]
      && transactions == old(transactions) && whenFinished == old(whenFinished)
      && outbox == old(outbox) && broadcastOpBuffer == old(broadcastOpBuffer) && storeLog == old(storeLog)
    }

    /** A state answer requests the transaction applying its operations and
        then, once the queue drains, the one applying its delete set, which
        resolves the sender's deferred; nothing else changes. */
    twostate predicate AnswerQueued(sender: PeerId, m: Message)
      reads this
      requires sender in connections
    {
      && transactions == old(transactions) + [ApplyOps(m)]
      && whenFinished == old(whenFinished) + [ApplyDeleteSetAndResolve(m.deleteSet, connections[sender].syncStep2)]
      && continuations == old(continuations)
      && outbox == old(outbox) && broadcastOpBuffer == old(broadcastOpBuffer) && storeLog == old(storeLog)
    }

    /** "sync done" marks the sender synced once its deferred resolves;
        nothing else changes. */
    twostate predicate SyncDoneQueued(sender: PeerId)
      reads this
      requires sender in connections
    {
      && continuations == old(continuations) + [SetSyncedWhenResolved(connections[sender].syncStep2, sender)]
      && transactions == old(transactions) && whenFinished == old(whenFinished)
      && outbox == old(outbox) && broadcastOpBuffer == old(broadcastOpBuffer) && storeLog == old(storeLog)
    }

    /** An update is relayed verbatim to the relay set, its deletions are
        re-broadcast, and it is handed to the store. */
    twostate predicate UpdateApplied(m: Message)
      reads this
    {
      var rebroadcast := forwardAppliedOperations && DeleteOps(m.ops) != [];
      && outbox == old(outbox) + (if forwardToSyncingClients then Forwarded(syncingClients, m) else [])
      && broadcastOpBuffer == old(broadcastOpBuffer) + (if rebroadcast then EncodeAll(encode, DeleteOps(m.ops)) else [])
      && whenFinished == old(whenFinished) + (if rebroadcast && old(broadcastOpBuffer) == [] then [FlushBroadcast] else [])
      && storeLog == old(storeLog) + [DbApply(m.ops)]
      && continuations == old(continuations) && transactions == old(transactions)
    }

    /** A message the gate turns away changes nothing. */
    twostate predicate NothingHandled()
      reads this
    {
      && continuations == old(continuations) && transactions == old(transactions)
      && whenFinished == old(whenFinished) && outbox == old(outbox)
      && broadcastOpBuffer == old(broadcastOpBuffer) && storeLog == old(storeLog)
    }

    /** The effect of the auth-gated handler for a message from a registered
        sender, relative to the state before it ran. */
    twostate predicate DispatchedAs(sender: PeerId, m: Message, auth: Permission)
      reads this
      requires sender in connections
    {
      match Gate(m.msgType, auth)
      case HandleSyncStep1 => OfferQueued(sender, m)
      case HandleSyncStep2 => AnswerQueued(sender, m)
      case HandleSyncDone => SyncDoneQueued(sender)
      case HandleUpdate => UpdateApplied(m)
      case Unhandled => NothingHandled()
    }

    /** The "sync step 1" branch (src/Connector.js:291-304). */
    method ReceiveOffer(sender: PeerId, m: Message)
      requires Valid()
      modifies this`continuations
      ensures Valid()
      ensures OfferQueued(sender, m)
    {
      var wait := if role == Some(Slave) then MasterDefers(connections) else {};
      continuations := continuations + [AnswerWhenResolved(wait, sender, m)];
    }

    /** The "sync step 2" branch (src/Connector.js:343-364). */
    method ReceiveAnswer(sender: PeerId, m: Message)
      requires Valid()
      requires sender in connections
      modifies this`transactions, this`whenFinished
      ensures Valid()
      ensures AnswerQueued(sender, m)
    {
      var defer := connections[sender].syncStep2;
      transactions := transactions + [ApplyOps(m)];
      whenFinished := whenFinished + [ApplyDeleteSetAndResolve(m.deleteSet, defer)];
    }

    /** The "sync done" branch (src/Connector.js:365-369). */
    method ReceiveSyncDone(sender: PeerId)
      requires Valid()
      requires sender in connections
      modifies this`continuations
      ensures Valid()
      ensures SyncDoneQueued(sender)
    {
      continuations := continuations + [SetSyncedWhenResolved(connections[sender].syncStep2, sender)];
    }

    /** The "update" branch (src/Connector.js:370-384). */
    method ReceiveUpdate(m: Message)
      requires Valid()
      modifies this`outbox, this`broadcastOpBuffer, this`whenFinished, this`storeLog
      ensures Valid()
      ensures UpdateApplied(m)
    {
      if forwardToSyncingClients {
        ForwardToSyncingClients(m);
      }
      if forwardAppliedOperations {
        var delops := DeleteOps(m.ops);
        if |delops| > 0 {
          BroadcastOps(delops);
        }
      }
      storeLog := storeLog + [DbApply(m.ops)];
    }

    /** The handler chained on the sender's auth (src/Connector.js:290-385):
        a state offer needs read access, a state answer and an update need
        write access, and "sync done" is not gated. */
    method Dispatch(sender: PeerId, m: Message, auth: Permission)
      requires Valid()
      requires sender in connections
      modifies this`continuations, this`transactions, this`whenFinished, this`outbox,
               this`broadcastOpBuffer, this`storeLog
      ensures Valid()
      ensures DispatchedAs(sender, m, auth)
    {
      match Gate(m.msgType, auth)
      case HandleSyncStep1 => ReceiveOffer(sender, m);
      case HandleSyncStep2 => ReceiveAnswer(sender, m);
      case HandleSyncDone => ReceiveSyncDone(sender);
      case HandleUpdate => ReceiveUpdate(m);
      case Unhandled =>
    }

    /** The auth memo of `receiveMessage` (src/Connector.js:272-288): a token
        in the message is always checked, and announced; without one, the
        anonymous check runs only when nothing is memoised yet. */
    method AuthenticateSender(sender: PeerId, m: Message) returns (auth: Permission)
      requires Valid()
      requires sender in connections
      modifies this`connections, this`userEvents
      ensures Valid()
      ensures var c := old(connections)[sender];
        && auth == (if m.auth.Some? || c.auth.None? then checkAuth(m.auth) else c.auth.value)
        && connections == old(connections)[sender := c.(auth := Some(auth))]
      ensures userEvents == old(userEvents) + (if m.auth.Some? then [Authenticated(sender, auth)] else [])
    {
      if m.auth.Some? {
        auth := checkAuth(m.auth);
        connections := connections[sender := connections[sender].(auth := Some(auth))];
        userEvents := userEvents + [Authenticated(sender, auth)];
      } else if connections[sender].auth.None? {
        auth := checkAuth(None);
        connections := connections[sender := connections[sender].(auth := Some(auth))];
      } else {
        auth := connections[sender].auth.value;
        assert connections == connections[sender := connections[sender].(auth := Some(auth))];
      }
    }

    /** A message from a registered sender: the permission, then the gated
        handler. */
    method HandleRegistered(sender: PeerId, m: Message)
      requires Valid() && sender in connections
      modifies this`connections, this`userEvents, this`continuations, this`transactions,
               this`whenFinished, this`outbox, this`broadcastOpBuffer, this`storeLog
      ensures Valid()
      ensures
        var c := old(connections)[sender];
        var auth := if m.auth.Some? || c.auth.None? then checkAuth(m.auth) else c.auth.value;
        && connections == old(connections)[sender := c.(auth := Some(auth))]
        && userEvents == old(userEvents) + (if m.auth.Some? then [Authenticated(sender, auth)] else [])
        && DispatchedAs(sender, m, auth)
    {
      var auth := AuthenticateSender(sender, m);
      Dispatch(sender, m, auth);
    }

    /** `receiveMessage`: a message from ourselves is ignored; a foreign
        protocol version is answered with "sync stop" and rejected before any
        auth handling; a sender without a connection is rejected. Otherwise
        the sender's permission is (re)computed when the message carries a
        token or none is memoised yet, and the gated handler runs. */
    method ReceiveMessage(sender: PeerId, m: Message) returns (r: Reply)
      requires Valid()
      modifies this`connections, this`userEvents, this`continuations, this`transactions,
               this`whenFinished, this`outbox, this`broadcastOpBuffer, this`storeLog
      ensures Valid()
      ensures userId == Some(sender) ==> r == Ignored && unchanged(this)
      ensures userId != Some(sender) && VersionMismatch(m) ==>
        && r == Rejected(IncompatibleProtocolVersion)
        && outbox == old(outbox) + [Send(sender, SyncStopMessage())]
        && unchanged(this`connections, this`userEvents, this`continuations, this`transactions,
                     this`whenFinished, this`broadcastOpBuffer, this`storeLog)
      ensures userId != Some(sender) && !VersionMismatch(m) && sender !in old(connections) ==>
        r == Rejected(UnableToDeliver) && unchanged(this)
      ensures userId != Some(sender) && !VersionMismatch(m) && sender in old(connections) ==>
        var c := old(connections)[sender];
        var auth := if m.auth.Some? || c.auth.None? then checkAuth(m.auth) else c.auth.value;
        && r == Dispatched
        && connections == old(connections)[sender := c.(auth := Some(auth))]
        && userEvents == old(userEvents) + (if m.auth.Some? then [Authenticated(sender, auth)] else [])
        && DispatchedAs(sender, m, auth)
    {
      if userId == Some(sender) {
        return Ignored;
      }
      if VersionMismatch(m) {
        outbox := outbox + [Send(sender, SyncStopMessage())];
        return Rejected(IncompatibleProtocolVersion);
      }
      if sender !in connections {
        return Rejected(UnableToDeliver);
      }
      HandleRegistered(sender, m);
      return Dispatched;
    }
  }

  /** The delete-set transactions the drained callbacks request, in order. */
  function DeleteSetTransactions(batch: seq<WhenFinished>): (r: seq<Transaction>)
    ensures |r| <= |batch|
    ensures forall t :: t in r ==> t.ApplyDeleteSet?
  {
    if batch == [] then []
    else
      var last := match batch[|batch| - 1]
        case ApplyDeleteSetAndResolve(ds, _) => [ApplyDeleteSet(ds)]
        case FlushBroadcast => [];
      DeleteSetTransactions(batch[..|batch| - 1]) + last
  }

  /** Draining a batch requests the delete-set transactions of its parts, in
      order. */
  lemma {:induction false} DeleteSetTransactionsAppend(a: seq<WhenFinished>, b: seq<WhenFinished>)
    ensures DeleteSetTransactions(a + b) == DeleteSetTransactions(a) + DeleteSetTransactions(b)
    decreases |b|
  {
    if b == [] {
      assert a + b == a;
    } else {
      var b' := b[..|b| - 1];
      assert (a + b)[..|a + b| - 1] == a + b';
      assert (a + b)[|a + b| - 1] == b[|b| - 1];
      DeleteSetTransactionsAppend(a, b');
    }
  }

  /** Together with DeleteSetTransactionsAppend this pins the drain down: a
      flush requests nothing, and a state answer's callback requests exactly
      the transaction applying its delete set. */
  lemma DeleteSetTransactionsSingle(cb: WhenFinished)
    ensures DeleteSetTransactions([cb]) ==
      match cb
      case FlushBroadcast => []
      case ApplyDeleteSetAndResolve(ds, _) => [ApplyDeleteSet(ds)]
  {
    assert [cb][..0] == [];
  }

  /** The deferreds the drained callbacks resolve. */
  function ResolvedDefers(batch: seq<WhenFinished>): (r: set<DeferId>)
    ensures forall i :: 0 <= i < |batch| && batch[i].ApplyDeleteSetAndResolve? ==> batch[i].defer in r
    ensures forall d :: d in r ==>
      exists i :: 0 <= i < |batch| && batch[i].ApplyDeleteSetAndResolve? && batch[i].defer == d
  {
    if batch == [] then {}
    else
      var last := match batch[|batch| - 1]
        case ApplyDeleteSetAndResolve(_, defer) => {defer}
        case FlushBroadcast => {};
      ResolvedDefers(batch[..|batch| - 1]) + last
  }

  /** Draining resolves no deferred beyond those the batch names: when every
      deferred in the batch was issued, so is every deferred it resolves. */
  lemma {:induction false} ResolvedDefersIssued(batch: seq<WhenFinished>, issued: nat)
    requires forall i :: 0 <= i < |batch| && batch[i].ApplyDeleteSetAndResolve? ==> batch[i].defer < issued
    ensures forall d :: d in ResolvedDefers(batch) ==> d < issued
  {
    if batch != [] {
      ResolvedDefersIssued(batch[..|batch| - 1], issued);
    }
  }
}
