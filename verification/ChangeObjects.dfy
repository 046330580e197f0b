/** The accumulator, the coalescer and the broadcast as the objects they are
    (apps/apple/Sunrise/Core/ChangeFeed.swift:62-278). */
module ChangeObjects {
  import opened Wrappers
  import opened ChangeFeed

  class ChangeAccumulator {
    var touched: set<Id>
    var lostNotifications: bool
    var closed: bool

    constructor ()
      ensures View() == Empty
    {
      touched, lostNotifications, closed := {}, false, false;
    }

    function View(): Accumulator
      reads this
    {
      Accumulator(touched, lostNotifications, closed)
    }

    method Record(change: Change)
      modifies this
      ensures View() == old(View()).Recorded(change)
    {
      match change
      case Entity(id) => touched := touched + {id};
      case Lagged(_) => lostNotifications := true;
      case ZoneChanged => lostNotifications := true;
      case Closed => closed := true;
    }

    method Drain() returns (batch: Option<Batch>)
      modifies this
      ensures batch == old(View()).Pending()
      ensures View() == if batch.Some? then old(View()).Drained() else old(View())
      ensures View() == old(View()).Drained()
    {
      if touched == {} && !lostNotifications && !closed {
        return None;
      }
      batch := Some(Batch(touched, !lostNotifications, closed));
      touched, lostNotifications := {}, false;
    }
  }

  class WindowCoalescer {
    const accumulator: ChangeAccumulator
    var windowIsOpen: bool
    ghost var flushes: nat

    constructor ()
      ensures fresh(accumulator) && View() == Coalescer(Empty, false, 0)
    {
      accumulator := new ChangeAccumulator();
      windowIsOpen, flushes := false, 0;
    }

    ghost function View(): Coalescer
      reads this, accumulator
    {
      Coalescer(accumulator.View(), windowIsOpen, flushes)
    }

    /** `true` when this notification opened the window, so that the caller schedules its one flush. */
    method Record(change: Change) returns (opensIt: bool)
      modifies this, accumulator
      ensures View() == old(View()).Recorded(change)
      ensures opensIt <==> flushes == old(flushes) + 1
    {
      accumulator.Record(change);
      if windowIsOpen {
        return false;
      }
      windowIsOpen := true;
      flushes := flushes + 1;
      return true;
    }

    method CloseWindow() returns (batch: Option<Batch>)
      modifies this, accumulator
      ensures batch == old(View()).accumulator.Pending()
      ensures View() == old(View()).WindowClosed()
    {
      windowIsOpen := false;
      batch := accumulator.Drain();
    }
  }

  class ChangeBroadcast {
    var streams: map<nat, Stream>
    var consumers: set<nat>
    var nextToken: nat
    var hasClosed: bool

    constructor ()
      ensures View() == Broadcast(map[], {}, 0, false)
    {
      streams, consumers, nextToken, hasClosed := map[], {}, 0, false;
    }

    function View(): Broadcast
      reads this
    {
      Broadcast(streams, consumers, nextToken, hasClosed)
    }

    method SubscribeIfOpen() returns (token: nat, wasOpen: bool)
      modifies this
      ensures View() == old(View()).Subscribed() && token == nextToken && wasOpen == !old(hasClosed)
    {
      wasOpen := !hasClosed;
      nextToken := nextToken + 1;
      token := nextToken;
      if hasClosed {
        streams := streams[token := Stream([Closed], true)];
      } else {
        streams := streams[token := Stream([], false)];
        consumers := consumers + {token};
      }
    }

    method Detach(token: nat)
      modifies this
      ensures View() == old(View()).Detached(token)
    {
      streams := streams - {token};
      consumers := consumers - {token};
    }

    method Publish(change: Change)
      requires consumers <= streams.Keys
      modifies this
      ensures View() == old(View()).Published(change)
    {
      var todo := consumers;
      while todo != {}
        invariant todo <= consumers == old(consumers) && nextToken == old(nextToken) && hasClosed == old(hasClosed)
        invariant streams.Keys == old(streams).Keys
        invariant forall t | t in streams ::
                    streams[t] == if t in consumers && t !in todo then old(streams)[t].Yield(change) else old(streams)[t]
      {
        var token :| token in todo;
        streams := streams[token := streams[token].Yield(change)];
        todo := todo - {token};
      }
      if change.Closed? {
        CloseAll();
      }
    }

    method CloseAll()
      requires consumers <= streams.Keys
      modifies this
      ensures View() == old(View()).ClosedAll()
    {
      hasClosed := true;
      var live := consumers;
      consumers := {};
      while live != {}
        invariant live <= old(consumers) && consumers == {} && hasClosed && nextToken == old(nextToken)
        invariant streams.Keys == old(streams).Keys
        invariant forall t | t in streams ::
                    streams[t] == if t in old(consumers) && t !in live then old(streams)[t].Finish() else old(streams)[t]
      {
        var token :| token in live;
        streams := streams[token := streams[token].Finish()];
        live := live - {token};
      }
    }
  }
}
