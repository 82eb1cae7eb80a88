/**
 * The connection counter and the stoppable listener of main.go.
 *
 * The mutex, the waiting goroutine and the real sockets are left out: the
 * operations run one after another, and what the operating system's listener
 * returns from accept(2) is an input. The global connCount is the `count`
 * field. Connections get the ids 0, 1, 2, ... in the order they are accepted.
 */
module Listener {
  import opened Common

  type ConnId = nat

  /** gracefulConn: an accepted connection wrapped so that its Close is observed. */
  datatype Conn = GracefulConn(id: ConnId)

  /** What the inner net.Listener's Accept returns while it is open. */
  datatype OsAccept = Arrived | Failed(err: string)

  datatype AcceptResult = Accepted(conn: Conn) | AcceptFailed(err: string)

  /** The outcome of sending on the stop channel (capacity 1, one receiver that receives once). */
  datatype StopResult = Received | Buffered | Blocked

  /**
   * Stands for net.ErrClosed, which the error a closed net.Listener gives
   * from Accept wraps; the exact error text is not modelled.
   */
  const ErrClosed: string := "use of closed network connection"

  /** The ids of the first `n` accepted connections. */
  function Range(n: nat): set<ConnId>
    decreases n
  {
    if n == 0 then {} else Range(n - 1) + {n - 1}
  }

  lemma {:induction false} RangeMembers(n: nat)
    ensures forall i: ConnId :: i in Range(n) <==> i < n
    decreases n
  {
    if n > 0 {
      RangeMembers(n - 1);
    }
  }

  lemma {:induction false} RangeSize(n: nat)
    ensures |Range(n)| == n
    decreases n
  {
    if n > 0 {
      RangeSize(n - 1);
      RangeMembers(n - 1);
    }
  }

  /**
   * When every close was of a different connection, the counter is the
   * number of live connections, so it is never negative.
   */
  lemma CountIsLive(accepted: nat, closeCalls: nat, closedIds: set<ConnId>)
    requires closedIds <= Range(accepted)
    requires closeCalls == |closedIds|
    ensures accepted - closeCalls == |Range(accepted) - closedIds|
    ensures accepted - closeCalls >= 0
  {
    RangeSize(accepted);
    assert Range(accepted) == (Range(accepted) - closedIds) + closedIds;
    assert |Range(accepted)| == |Range(accepted) - closedIds| + |closedIds|;
  }

  class GracefulListener {
    /** connCount.c */
    var count: int
    /** Whether the inner net.Listener is still open. */
    var listenerOpen: bool
    /** Whether a stop signal is sitting in the stop channel's buffer. */
    var stopBuffered: bool
    /** Number of successful accepts so far; also the id of the next connection. */
    var accepted: nat
    /** Connections closed at least once. */
    ghost var closedIds: set<ConnId>
    /** Number of Close calls, counting repeated ones. */
    ghost var closeCalls: nat
    /** Accepted connections not yet closed. */
    ghost var live: set<ConnId>
    /** Inner connections closed, in order. */
    ghost var innerCloses: seq<ConnId>

    ghost predicate Valid()
      reads this
    {
      && count == accepted - closeCalls
      && closedIds <= Range(accepted)
      && |closedIds| <= closeCalls
      && live == Range(accepted) - closedIds
      && (listenerOpen ==> !stopBuffered)
    }

    /** Each connection was closed at most once. */
    ghost predicate ClosedAtMostOnce()
      reads this
    {
      closeCalls == |closedIds|
    }

    /**
     * newGracefulListener on a fresh process: the listener is open, the
     * stop waiter is waiting and no connection has been counted.
     */
    constructor ()
      ensures Valid() && ClosedAtMostOnce()
      ensures count == 0 && listenerOpen && !stopBuffered && accepted == 0
      ensures live == {} && innerCloses == []
    {
      count := 0;
      listenerOpen := true;
      stopBuffered := false;
      accepted := 0;
      closedIds := {};
      closeCalls := 0;
      live := {};
      innerCloses := [];
    }

    /** counter.get */
    method Get() returns (ct: int)
      ensures ct == count
    {
      ct := count;
    }

    /** The inner listener's Accept: a closed listener always fails. */
    function InnerAccept(os: OsAccept): OsAccept
      reads this
    {
      if listenerOpen then os else Failed(ErrClosed)
    }

    /** gracefulListener.Accept */
    method Accept(os: OsAccept) returns (r: AcceptResult)
      requires Valid()
      modifies this
      ensures Valid()
      ensures ClosedAtMostOnce() <==> old(ClosedAtMostOnce())
      ensures listenerOpen == old(listenerOpen) && stopBuffered == old(stopBuffered)
      ensures closedIds == old(closedIds) && closeCalls == old(closeCalls) && innerCloses == old(innerCloses)
      ensures InnerAccept(os).Failed? ==>
                r == AcceptFailed(old(InnerAccept(os)).err) && count == old(count) &&
                accepted == old(accepted) && live == old(live)
      ensures InnerAccept(os).Arrived? ==>
                r == Accepted(GracefulConn(old(accepted))) && count == old(count) + 1 &&
                accepted == old(accepted) + 1 && live == old(live) + {old(accepted)}
    {
      var inner := InnerAccept(os);
      if inner.Failed? {
        return AcceptFailed(inner.err);
      }
      r := Accepted(GracefulConn(accepted));
      RangeMembers(accepted);
      live := live + {accepted};
      accepted := accepted + 1;
      count := count + 1;
    }

    /**
     * gracefulConn.Close: decrements the counter, with no guard against a
     * second close, and then closes the inner connection, whose error
     * (`innerErr`) it returns.
     */
    method Close(c: Conn, innerErr: Option<string>) returns (err: Option<string>)
      requires Valid()
      requires c.id < accepted
      modifies this
      ensures Valid()
      ensures err == innerErr
      ensures count == old(count) - 1
      ensures closeCalls == old(closeCalls) + 1 && closedIds == old(closedIds) + {c.id}
      ensures live == old(live) - {c.id}
      ensures innerCloses == old(innerCloses) + [c.id]
      ensures c.id !in old(closedIds) ==> (ClosedAtMostOnce() <==> old(ClosedAtMostOnce()))
      ensures c.id in old(closedIds) ==> !ClosedAtMostOnce()
      ensures accepted == old(accepted) && listenerOpen == old(listenerOpen) && stopBuffered == old(stopBuffered)
    {
      RangeMembers(accepted);
      count := count - 1;
      closeCalls := closeCalls + 1;
      closedIds := closedIds + {c.id};
      live := live - {c.id};
      innerCloses := innerCloses + [c.id];
      err := innerErr;
    }

    /**
     * One send on the stop channel, followed by whatever the waiting
     * goroutine does with it: the first signal is received and the inner
     * listener closed; a second one fills the buffer; a third would block.
     */
    method Stop() returns (r: StopResult)
      requires Valid()
      modifies this
      ensures Valid()
      ensures old(listenerOpen) ==> r == Received && !listenerOpen && !stopBuffered
      ensures !old(listenerOpen) && !old(stopBuffered) ==> r == Buffered && !listenerOpen && stopBuffered
      ensures !old(listenerOpen) && old(stopBuffered) ==> r == Blocked && !listenerOpen && stopBuffered
      ensures count == old(count) && accepted == old(accepted) && live == old(live)
      ensures closedIds == old(closedIds) && closeCalls == old(closeCalls) && innerCloses == old(innerCloses)
    {
      if listenerOpen {
        listenerOpen := false;
        r := Received;
      } else if !stopBuffered {
        stopBuffered := true;
        r := Buffered;
      } else {
        r := Blocked;
      }
    }
  }

  /** Under single closes the counter equals the live connections and is non-negative. */
  lemma ListenerCountIsLive(l: GracefulListener)
    requires l.Valid() && l.ClosedAtMostOnce()
    ensures l.count == |l.live| && l.count >= 0
  {
    CountIsLive(l.accepted, l.closeCalls, l.closedIds);
  }

  // ---------------------------------------------------------------------------
  // Client scenarios

  /**
   * Ten connections are accepted, the listener is stopped, three of them
   * close: the counter reads 7 and an eleventh accept is refused.
   */
  method DrainScenario() returns (before: int, after: int, eleventh: AcceptResult)
    ensures before == 10 && after == 7
    ensures eleventh == AcceptFailed(ErrClosed)
  {
    var l := new GracefulListener();
    var i := 0;
    while i < 10
      invariant 0 <= i <= 10
      invariant l.Valid() && l.ClosedAtMostOnce() && l.listenerOpen && !l.stopBuffered
      invariant l.accepted == i && l.count == i
    {
      var r := l.Accept(Arrived);
      i := i + 1;
    }
    before := l.Get();
    var s := l.Stop();
    var j := 0;
    while j < 3
      invariant 0 <= j <= 3
      invariant l.Valid() && !l.listenerOpen && l.accepted == 10 && l.count == 10 - j
    {
      var e := l.Close(GracefulConn(j), None);
      j := j + 1;
    }
    after := l.Get();
    eleventh := l.Accept(Arrived);
  }

  /** Closing one connection twice drives the counter below zero. */
  method DoubleCloseScenario() returns (ct: int)
    ensures ct == -1
  {
    var l := new GracefulListener();
    var r := l.Accept(Arrived);
    var e1 := l.Close(GracefulConn(0), None);
    var e2 := l.Close(GracefulConn(0), Some(ErrClosed));
    ct := l.Get();
  }
}
