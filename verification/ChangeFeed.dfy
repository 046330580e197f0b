/** The change feed as values: the accumulator, the coalescing window, the
    fan-out and what one screen does with a batch
    (apps/apple/Sunrise/Core/ChangeFeed.swift). */
module ChangeFeed {
  import opened Wrappers

  type Id = string

  datatype Change = Entity(id: Id) | Lagged(skipped: nat) | ZoneChanged | Closed

  datatype Batch = Batch(touched: set<Id>, isComplete: bool, isClosed: bool)

  /** The batch a fresh subscription begins with. */
  const Prime: Batch := Batch({}, false, false)

  datatype Accumulator = Accumulator(touched: set<Id>, lost: bool, closed: bool) {
    predicate HasPending() {
      touched != {} || lost || closed
    }

    function Recorded(change: Change): Accumulator {
      match change
      case Entity(id) => this.(touched := touched + {id})
      case Lagged(_) => this.(lost := true)
      case ZoneChanged => this.(lost := true)
      case Closed => this.(closed := true)
    }

    function Pending(): Option<Batch> {
      if HasPending() then Some(Batch(touched, !lost, closed)) else None
    }

    /** What a drain leaves: closing is sticky. */
    function Drained(): Accumulator {
      Accumulator({}, false, closed)
    }
  }

  const Empty: Accumulator := Accumulator({}, false, false)

  /** The accumulator and its window; `flushes` counts the flushes scheduled and not yet run. */
  datatype Coalescer = Coalescer(accumulator: Accumulator, windowIsOpen: bool, flushes: nat) {
    function Recorded(change: Change): Coalescer {
      Coalescer(accumulator.Recorded(change), true, if windowIsOpen then flushes else flushes + 1)
    }

    function WindowClosed(): Coalescer {
      Coalescer(accumulator.Drained(), false, flushes)
    }
  }

  /** What a closing window yields after the batches already waiting. */
  function Yielded(batches: seq<Batch>, c: Coalescer): seq<Batch> {
    match c.accumulator.Pending()
    case Some(batch) => batches + [batch]
    case None => batches
  }

  /** One consumer's raw stream: what was yielded to it and whether it has ended. */
  datatype Stream = Stream(queue: seq<Change>, ended: bool) {
    function Yield(change: Change): Stream {
      if ended then this else this.(queue := queue + [change])
    }

    function Finish(): Stream {
      this.(ended := true)
    }
  }

  /** The fan-out: the streams of the live consumers and of those already ended. */
  datatype Broadcast = Broadcast(streams: map<nat, Stream>, live: set<nat>, nextToken: nat, hasClosed: bool) {
    function Subscribed(): Broadcast {
      if hasClosed then this.(streams := streams[nextToken + 1 := Stream([Closed], true)], nextToken := nextToken + 1)
      else Broadcast(streams[nextToken + 1 := Stream([], false)], live + {nextToken + 1}, nextToken + 1, false)
    }

    function Detached(token: nat): Broadcast {
      this.(streams := streams - {token}, live := live - {token})
    }

    function ClosedAll(): Broadcast {
      Broadcast(map t | t in streams :: if t in live then streams[t].Finish() else streams[t], {}, nextToken, true)
    }

    function Published(change: Change): Broadcast {
      var told := this.(streams := map t | t in streams :: if t in live then streams[t].Yield(change) else streams[t]);
      if change.Closed? then told.ClosedAll() else told
    }
  }

  type Value = string

  /** What a vault says and what a screen shows: the rows, and the zone they were read in. */
  datatype View = View(rows: map<Id, Value>, zone: string) {
    function Row(id: Id): Option<Value> {
      if id in rows then Some(rows[id]) else None
    }

    function Written(id: Id, value: Option<Value>): View {
      if value.Some? then this.(rows := rows[id := value.value]) else this.(rows := rows - {id})
    }

    /** Read the rows named again, leaving the others as they were. */
    function Patched(touched: set<Id>, vault: View): View {
      this.(rows := map id | id in rows.Keys + vault.rows.Keys && (if id in touched then id in vault.rows else id in rows)
                      :: if id in touched then vault.rows[id] else rows[id])
    }

    /** The consumer's contract: everything on an incomplete batch, the ids named on a complete one. */
    function Followed(batch: Batch, vault: View): View {
      if batch.isComplete then Patched(batch.touched, vault) else vault
    }
  }

  lemma PatchedRow(view: View, touched: set<Id>, vault: View, id: Id)
    ensures view.Patched(touched, vault).Row(id) == if id in touched then vault.Row(id) else view.Row(id)
    ensures view.Patched(touched, vault).zone == view.zone
  {}

  lemma SameRowsAreEqual(a: View, b: View)
    requires a.zone == b.zone && forall id :: a.Row(id) == b.Row(id)
    ensures a == b
  {
    forall id
      ensures id in a.rows <==> id in b.rows
      ensures id in a.rows ==> a.rows[id] == b.rows[id]
    {
      assert a.Row(id) == b.Row(id);
    }
    assert a.rows == b.rows;
  }
}
