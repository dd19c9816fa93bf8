/** Sequences of connector calls whose combined effect the source relies on. */
module Scenarios {
  import opened Protocol
  import opened Connector

  /** Two `broadcastOps` calls before the queue drains go out as one "update"
      carrying both batches, encoded, in call order (src/Connector.js:230-250). */
  method CoalescedBroadcast(c: AbstractConnector, first: seq<Op>, second: seq<Op>)
    requires c.Valid() && c.broadcastOpBuffer == [] && c.transactions == []
    modifies c`broadcastOpBuffer, c`whenFinished, c`transactions, c`resolved, c`outbox
    ensures c.Valid()
    ensures c.broadcastOpBuffer == []
    ensures c.outbox == old(c.outbox) + FlushSends(EncodeAll(c.encode, first + second))
  {
    c.BroadcastOps(first);
    assert c.whenFinished[|c.whenFinished| - 1] == FlushBroadcast;
    c.BroadcastOps(second);
    assert FlushBroadcast in c.whenFinished;
    EncodeAllAppend(c.encode, first, second);
    assert c.broadcastOpBuffer == EncodeAll(c.encode, first + second);
    assert c.outbox == old(c.outbox);
    c.TransactionsFinished();
  }
}
