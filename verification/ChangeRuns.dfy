/** The whole feed as a protocol: writes, a lossy channel, the hop into the
    fan-out, windows cut anywhere, screens that come and go
    (apps/apple/Sunrise/Core/ChangeFeed.swift, CoreBridge.swift:428-472). */
module ChangeRuns {
  import opened Wrappers
  import opened ChangeFeed

  /** One screen: its raw stream, its window, the batches waiting for it, and what it shows. */
  datatype Screen = Screen(stream: Stream, window: Coalescer, batches: seq<Batch>, view: View)

  /** `channel` is what the core has sent and the listener has not yet had;
      `raw` what the listener has had and the fan-out has not. */
  datatype World = World(
    vault: View,
    listening: bool,
    channel: seq<Change>,
    raw: seq<Change>,
    screens: map<nat, Screen>,
    next: nat,
    shut: bool)

  datatype Step =
    | Write(id: Id, value: Option<Value>)
    | SetZone(zone: string)
    | Overflow(lost: nat)
    | Forward
    | Publish
    | Open(view: View)
    | Leave(screen: nat)
    | Take(screen: nat)
    | Flush(screen: nat)
    | Show(screen: nat)
    | Shutdown

  predicate Enabled(w: World, s: Step) {
    match s
    case Write(_, _) => !w.shut
    case SetZone(_) => !w.shut
    case Overflow(lost) => 0 < lost <= |w.channel|
    case Forward => w.channel != []
    case Publish => w.raw != []
    case Open(_) => true
    case Leave(t) => t in w.screens
    case Take(t) => t in w.screens && w.screens[t].stream.queue != []
    case Flush(t) => t in w.screens && w.screens[t].window.flushes > 0
    case Show(t) => t in w.screens && w.screens[t].batches != []
    case Shutdown => true
  }

  function Sent(w: World, change: Change): seq<Change> {
    if w.listening then w.channel + [change] else w.channel
  }

  function Taken(s: Screen): Screen
    requires s.stream.queue != []
  {
    s.(stream := s.stream.(queue := s.stream.queue[1..]), window := s.window.Recorded(s.stream.queue[0]))
  }

  function Flushed(s: Screen): Screen
    requires s.window.flushes > 0
  {
    s.(window := s.window.WindowClosed().(flushes := s.window.flushes - 1), batches := Yielded(s.batches, s.window))
  }

  /** A screen stops at a batch that says the vault has closed; any other it follows. */
  function Shown(s: Screen, vault: View): Screen
    requires s.batches != []
  {
    s.(batches := s.batches[1..],
       view := if s.batches[0].isClosed then s.view else s.view.Followed(s.batches[0], vault))
  }

  /** A screen that has just subscribed: primed on an open feed only. */
  function Opened(stream: Stream, view: View, shut: bool): Screen {
    Screen(stream, Coalescer(Empty, false, 0), if shut then [] else [Prime], view)
  }

  /** The fan-out, as the screens' streams show it. */
  function Hub(w: World): Broadcast {
    Broadcast((map t | t in w.screens :: w.screens[t].stream),
              (set t | t in w.screens && !w.screens[t].stream.ended), w.next, w.shut)
  }

  /** The screens on the streams the fan-out now has for them. */
  function On(screens: map<nat, Screen>, hub: Broadcast): map<nat, Screen> {
    map t | t in screens && t in hub.streams :: screens[t].(stream := hub.streams[t])
  }

  function Next(w: World, s: Step): World
    requires Enabled(w, s)
  {
    match s
    case Write(id, value) => w.(vault := w.vault.Written(id, value), channel := Sent(w, Entity(id)))
    case SetZone(zone) => w.(vault := w.vault.(zone := zone), channel := Sent(w, ZoneChanged))
    case Overflow(lost) => w.(channel := [Lagged(lost)] + w.channel[lost..])
    case Forward => w.(channel := w.channel[1..], raw := w.raw + [w.channel[0]])
    case Publish =>
      w.(raw := w.raw[1..], screens := On(w.screens, Hub(w).Published(w.raw[0])))
    case Open(view) =>
      var hub := Hub(w).Subscribed();
      w.(listening := w.listening || !w.shut,
         screens := On(w.screens, hub)[hub.nextToken := Opened(hub.streams[hub.nextToken], view, w.shut)],
         next := hub.nextToken)
    case Leave(t) => w.(screens := On(w.screens, Hub(w).Detached(t)))
    case Take(t) => w.(screens := w.screens[t := Taken(w.screens[t])])
    case Flush(t) => w.(screens := w.screens[t := Flushed(w.screens[t])])
    case Show(t) => w.(screens := w.screens[t := Shown(w.screens[t], w.vault)])
    case Shutdown =>
      w.(listening := false, channel := [], raw := [], shut := true,
         screens := On(w.screens, Hub(w).ClosedAll()))
  }

  predicate CanRun(w: World, steps: seq<Step>)
    decreases |steps|
  {
    steps == [] || (Enabled(w, steps[0]) && CanRun(Next(w, steps[0]), steps[1..]))
  }

  function Run(w: World, steps: seq<Step>): World
    requires CanRun(w, steps)
    decreases |steps|
  {
    if steps == [] then w else Run(Next(w, steps[0]), steps[1..])
  }

  // ---- What is still on its way to a screen ----

  function OnTheWay(w: World, s: Screen): seq<Change> {
    s.stream.queue + w.raw + w.channel
  }

  /** Something on the way makes the screen read everything again. */
  ghost predicate AllComing(way: seq<Change>, s: Screen) {
    || (exists k :: 0 <= k < |way| && (way[k].Lagged? || way[k].ZoneChanged?))
    || s.window.accumulator.lost
    || (exists k :: 0 <= k < |s.batches| && !s.batches[k].isComplete)
  }

  /** Something on the way makes the screen read this row again. */
  ghost predicate Coming(way: seq<Change>, s: Screen, id: Id) {
    || AllComing(way, s)
    || Entity(id) in way
    || id in s.window.accumulator.touched
    || (exists k :: 0 <= k < |s.batches| && id in s.batches[k].touched)
  }

  /** Whatever a screen shows wrongly, it has yet to be told about. */
  ghost predicate Covered(way: seq<Change>, s: Screen, vault: View) {
    && (forall id :: s.view.Row(id) != vault.Row(id) ==> Coming(way, s, id))
    && (s.view.zone != vault.zone ==> AllComing(way, s))
  }

  /** One flush is scheduled exactly while the window is open, and the window is
      open while anything is pending. */
  predicate Windowed(c: Coalescer) {
    && c.flushes == (if c.windowIsOpen then 1 else 0)
    && (c.accumulator.touched != {} || c.accumulator.lost ==> c.windowIsOpen)
  }

  /** Nothing has said "closed" yet. */
  predicate StillOpen(s: Screen) {
    && !s.stream.ended && Closed !in s.stream.queue
    && !s.window.accumulator.closed
    && forall k | 0 <= k < |s.batches| :: !s.batches[k].isClosed
  }

  ghost predicate Sound(w: World) {
    && (forall t | t in w.screens :: t <= w.next && Windowed(w.screens[t].window))
    && (!w.shut ==>
          && Closed !in w.raw && Closed !in w.channel
          && (w.screens != map[] ==> w.listening)
          && forall t | t in w.screens :: StillOpen(w.screens[t]) && Covered(OnTheWay(w, w.screens[t]), w.screens[t], w.vault))
  }

  // ---- One screen, one step ----

  lemma WriteCovers(way: seq<Change>, s: Screen, vault: View, id: Id, value: Option<Value>)
    requires Covered(way, s, vault)
    ensures Covered(way + [Entity(id)], s, vault.Written(id, value))
  {
    forall k | 0 <= k < |way|
      ensures (way + [Entity(id)])[k] == way[k]
    {}
    forall other | s.view.Row(other) != vault.Written(id, value).Row(other)
      ensures Coming(way + [Entity(id)], s, other)
    {
      if other == id {
        assert (way + [Entity(id)])[|way|] == Entity(id);
      }
    }
  }

  lemma ZoneCovers(way: seq<Change>, s: Screen, vault: View, zone: string)
    ensures Covered(way + [ZoneChanged], s, vault.(zone := zone))
  {
    assert (way + [ZoneChanged])[|way|].ZoneChanged?;
  }

  lemma OverflowCovers(before: seq<Change>, channel: seq<Change>, s: Screen, vault: View, lost: nat)
    requires lost <= |channel|
    ensures Covered(before + ([Lagged(lost)] + channel[lost..]), s, vault)
  {
    assert (before + ([Lagged(lost)] + channel[lost..]))[|before|].Lagged?;
  }

  lemma {:induction false} TakeCovers(way: seq<Change>, s: Screen, vault: View)
    requires Covered(way, s, vault) && way != [] && s.stream.queue != [] && way[0] == s.stream.queue[0]
    ensures Covered(way[1..], Taken(s), vault)
  {
    forall k | 0 < k < |way|
      ensures way[k] == way[1..][k - 1]
    {}
  }

  lemma {:induction false} FlushCovers(way: seq<Change>, s: Screen, vault: View)
    requires Covered(way, s, vault) && s.window.flushes > 0
    ensures Covered(way, Flushed(s), vault)
  {
    var s', n := Flushed(s), |s.batches|;
    forall k | 0 <= k < n
      ensures s'.batches[k] == s.batches[k]
    {}
    if s.window.accumulator.HasPending() {
      assert s'.batches[n] == Batch(s.window.accumulator.touched, !s.window.accumulator.lost, s.window.accumulator.closed);
    }
  }

  lemma {:induction false} ShowCovers(way: seq<Change>, s: Screen, vault: View)
    requires Covered(way, s, vault) && s.batches != [] && !s.batches[0].isClosed
    ensures Covered(way, Shown(s, vault), vault)
  {
    var s', batch := Shown(s, vault), s.batches[0];
    forall k | 0 < k < |s.batches|
      ensures s.batches[k] == s'.batches[k - 1]
    {}
    if batch.isComplete {
      forall id
        ensures s'.view.Row(id) == if id in batch.touched then vault.Row(id) else s.view.Row(id)
      {
        PatchedRow(s.view, batch.touched, vault, id);
      }
    }
  }

  lemma OpenedIsCovered(way: seq<Change>, stream: Stream, view: View, vault: View)
    ensures Covered(way, Opened(stream, view, false), vault)
  {
    assert !Opened(stream, view, false).batches[0].isComplete;
  }

  /** What each operation of the fan-out does to the screens' streams. */
  lemma HubYields(w: World, change: Change)
    requires !change.Closed?
    ensures On(w.screens, Hub(w).Published(change))
         == map t | t in w.screens :: w.screens[t].(stream := w.screens[t].stream.Yield(change))
  {}

  lemma HubSubscribes(w: World)
    requires forall t | t in w.screens :: t <= w.next
    ensures var hub := Hub(w).Subscribed();
            && hub.nextToken == w.next + 1 && On(w.screens, hub) == w.screens
            && hub.streams[hub.nextToken] == if w.shut then Stream([Closed], true) else Stream([], false)
  {}

  lemma HubDetaches(w: World, t: nat)
    ensures On(w.screens, Hub(w).Detached(t)) == w.screens - {t}
  {}

  lemma HubCloses(w: World)
    ensures On(w.screens, Hub(w).ClosedAll())
         == map t | t in w.screens :: w.screens[t].(stream := w.screens[t].stream.Finish())
  {}

  // ---- Every run ----

  lemma {:induction false} FeedingKeepsSound(w: World, s: Step)
    requires Sound(w) && Enabled(w, s) && (s.Write? || s.SetZone? || s.Overflow?)
    ensures Sound(Next(w, s))
  {
    var w' := Next(w, s);
    forall t | t in w'.screens && !w'.shut
      ensures Covered(OnTheWay(w', w.screens[t]), w.screens[t], w'.vault)
    {
      var screen := w.screens[t];
      var before := screen.stream.queue + w.raw;
      match s
      case Write(id, value) =>
        WriteCovers(OnTheWay(w, screen), screen, w.vault, id, value);
        assert OnTheWay(w', screen) == OnTheWay(w, screen) + [Entity(id)];
      case SetZone(zone) =>
        ZoneCovers(OnTheWay(w, screen), screen, w.vault, zone);
        assert OnTheWay(w', screen) == OnTheWay(w, screen) + [ZoneChanged];
      case Overflow(lost) =>
        OverflowCovers(before, w.channel, screen, w.vault, lost);
    }
  }

  lemma {:induction false} ForwardKeepsSound(w: World)
    requires Sound(w) && w.channel != []
    ensures Sound(Next(w, Forward))
  {
    var w' := Next(w, Forward);
    forall t | t in w.screens
      ensures OnTheWay(w', w.screens[t]) == OnTheWay(w, w.screens[t])
    {
      SameWay(w.screens[t].stream.queue, w.raw, w.channel);
    }
    assert w.channel[0] in w.channel;
  }

  lemma SameWay(queue: seq<Change>, raw: seq<Change>, channel: seq<Change>)
    requires channel != []
    ensures queue + (raw + [channel[0]]) + channel[1..] == queue + raw + channel
  {}

  lemma SameWayToo(queue: seq<Change>, raw: seq<Change>, channel: seq<Change>)
    requires raw != []
    ensures (queue + [raw[0]]) + raw[1..] + channel == queue + raw + channel
  {}

  lemma {:induction false} PublishKeepsSound(w: World)
    requires Sound(w) && w.raw != []
    ensures Sound(Next(w, Publish))
  {
    var w' := Next(w, Publish);
    if w.shut {
      return;
    }
    assert w.raw[0] in w.raw;
    HubYields(w, w.raw[0]);
    forall t | t in w'.screens && !w'.shut
      ensures StillOpen(w'.screens[t]) && Covered(OnTheWay(w', w'.screens[t]), w'.screens[t], w'.vault)
    {
      var before, after := w.screens[t], w'.screens[t];
      SameWayToo(before.stream.queue, w.raw, w.channel);
      assert OnTheWay(w', after) == OnTheWay(w, before);
      assert Covered(OnTheWay(w', after), after, w.vault) by {
        SameComing(OnTheWay(w, before), before, after);
      }
    }
  }

  lemma SameComing(way: seq<Change>, s: Screen, s': Screen)
    requires s'.window == s.window && s'.batches == s.batches && s'.view == s.view
    ensures forall vault :: Covered(way, s, vault) ==> Covered(way, s', vault)
  {}

  lemma {:induction false} ScreensKeepSound(w: World, s: Step)
    requires Sound(w) && Enabled(w, s) && (s.Take? || s.Flush? || s.Show?)
    ensures Sound(Next(w, s))
  {
    var t, w' := s.screen, Next(w, s);
    var screen := w.screens[t];
    if !w.shut {
      var way := OnTheWay(w, screen);
      match s
      case Take(_) =>
        TakeCovers(way, screen, w.vault);
        assert OnTheWay(w', w'.screens[t]) == way[1..];
        assert screen.stream.queue[0] in screen.stream.queue;
      case Flush(_) =>
        FlushCovers(way, screen, w.vault);
      case Show(_) =>
        ShowCovers(way, screen, w.vault);
    }
  }

  lemma {:induction false} ComingAndGoingKeepsSound(w: World, s: Step)
    requires Sound(w) && (s.Open? || s.Leave? || s.Shutdown?) && Enabled(w, s)
    ensures Sound(Next(w, s))
  {
    match s
    case Open(view) =>
      HubSubscribes(w);
      var screen := Next(w, s).screens[w.next + 1];
      if !w.shut {
        OpenedIsCovered(OnTheWay(Next(w, s), screen), screen.stream, view, w.vault);
      }
    case Leave(t) => HubDetaches(w, t);
    case Shutdown => HubCloses(w);
  }

  lemma {:induction false} NextIsSound(w: World, s: Step)
    requires Sound(w) && Enabled(w, s)
    ensures Sound(Next(w, s))
  {
    match s
    case Write(_, _) => FeedingKeepsSound(w, s);
    case SetZone(_) => FeedingKeepsSound(w, s);
    case Overflow(_) => FeedingKeepsSound(w, s);
    case Forward => ForwardKeepsSound(w);
    case Publish => PublishKeepsSound(w);
    case Open(_) => ComingAndGoingKeepsSound(w, s);
    case Leave(_) => ComingAndGoingKeepsSound(w, s);
    case Shutdown => ComingAndGoingKeepsSound(w, s);
    case Take(_) => ScreensKeepSound(w, s);
    case Flush(_) => ScreensKeepSound(w, s);
    case Show(_) => ScreensKeepSound(w, s);
  }

  lemma {:induction false} EveryRunIsSound(w: World, steps: seq<Step>)
    requires Sound(w) && CanRun(w, steps)
    ensures Sound(Run(w, steps))
    decreases |steps|
  {
    if steps != [] {
      NextIsSound(w, steps[0]);
      EveryRunIsSound(Next(w, steps[0]), steps[1..]);
    }
  }

  /** A vault nobody is watching yet, whatever was written before. */
  function Unwatched(vault: View): World {
    World(vault, false, [], [], map[], 0, false)
  }

  /** Nothing is on its way to the screen. */
  predicate Drained(w: World, t: nat)
    requires t in w.screens
  {
    OnTheWay(w, w.screens[t]) == [] && !w.screens[t].window.windowIsOpen && w.screens[t].batches == []
  }

  /** Any writes, any losses, any window cuts, any screens coming at any point
      with anything on them: a screen whose feed is drained shows the vault. */
  lemma {:induction false} ADrainedScreenShowsTheVault(vault: View, steps: seq<Step>, t: nat)
    requires CanRun(Unwatched(vault), steps)
    requires var w := Run(Unwatched(vault), steps); !w.shut && t in w.screens && Drained(w, t)
    ensures var w := Run(Unwatched(vault), steps); w.screens[t].view == w.vault
  {
    EveryRunIsSound(Unwatched(vault), steps);
    var w := Run(Unwatched(vault), steps);
    var s := w.screens[t];
    assert Covered([], s, w.vault);
    SameRowsAreEqual(s.view, w.vault);
  }

  /** How many deliveries still stand between a screen and the vault. */
  function Work(w: World, t: nat): nat
    requires t in w.screens
  {
    var s := w.screens[t];
    6 * |w.channel| + 5 * |w.raw| + 4 * |s.stream.queue| + 2 * s.window.flushes + |s.batches|
  }

  /** What is left to happen for a screen that is not drained. */
  function Delivery(w: World, t: nat): Step
    requires t in w.screens
  {
    if w.screens[t].batches != [] then Show(t)
    else if w.screens[t].window.flushes > 0 then Flush(t)
    else if w.screens[t].stream.queue != [] then Take(t)
    else if w.raw != [] then Publish
    else Forward
  }

  /** A screen that is not drained always has a delivery due, and each one leaves
      less to do: nothing waits for a later, unrelated change. */
  lemma {:induction false} ADeliveryIsDue(w: World, t: nat)
    requires Sound(w) && !w.shut && t in w.screens && !Drained(w, t)
    ensures Enabled(w, Delivery(w, t)) && t in Next(w, Delivery(w, t)).screens
    ensures Work(Next(w, Delivery(w, t)), t) < Work(w, t)
    ensures Next(w, Delivery(w, t)).vault == w.vault && !Next(w, Delivery(w, t)).shut
  {
    assert StillOpen(w.screens[t]);
  }

  /** Once the writing stops, so many deliveries later the screen shows the vault. */
  lemma {:induction false} EveryScreenCatchesUp(w: World, t: nat) returns (steps: seq<Step>)
    requires Sound(w) && !w.shut && t in w.screens
    ensures CanRun(w, steps) && |steps| <= Work(w, t)
    ensures Run(w, steps).vault == w.vault && t in Run(w, steps).screens && Run(w, steps).screens[t].view == w.vault
    decreases Work(w, t)
  {
    steps := [];
    if Drained(w, t) {
      assert Covered([], w.screens[t], w.vault);
      SameRowsAreEqual(w.screens[t].view, w.vault);
    } else {
      ADeliveryIsDue(w, t);
      var step := Delivery(w, t);
      NextIsSound(w, step);
      var rest := EveryScreenCatchesUp(Next(w, step), t);
      steps := [step] + rest;
      assert steps[1..] == rest;
    }
  }

  // ---- After the vault has closed ----

  /** Every batch the screen has or can still be given says the vault has closed. */
  predicate OnlyClosing(s: Screen) {
    && s.stream.ended
    && (forall k | 0 <= k < |s.stream.queue| :: s.stream.queue[k] == Closed)
    && (s.window.accumulator.HasPending() ==> s.window.accumulator.closed)
    && (forall k | 0 <= k < |s.batches| :: s.batches[k].isClosed)
  }

  /** A screen opened onto a closed vault never reads it: no prime, and nothing but the closing. */
  lemma {:induction false} AClosedVaultIsNeverRead(w: World, steps: seq<Step>, t: nat)
    requires w.shut && CanRun(w, steps) && t in w.screens && t <= w.next && OnlyClosing(w.screens[t])
    ensures t in Run(w, steps).screens ==> Run(w, steps).screens[t].view == w.screens[t].view
    decreases |steps|
  {
    if steps != [] {
      var w' := Next(w, steps[0]);
      if t in w'.screens {
        assert OnlyClosing(w'.screens[t]) && w'.screens[t].view == w.screens[t].view;
        AClosedVaultIsNeverRead(w', steps[1..], t);
      } else {
        LeftForGood(w', steps[1..], t);
      }
    }
  }

  lemma {:induction false} LeftForGood(w: World, steps: seq<Step>, t: nat)
    requires CanRun(w, steps) && t !in w.screens && t <= w.next
    ensures t !in Run(w, steps).screens
    decreases |steps|
  {
    if steps != [] {
      LeftForGood(Next(w, steps[0]), steps[1..], t);
    }
  }

  lemma OpeningOntoAClosedVault(w: World, view: View)
    requires w.shut
    ensures OnlyClosing(Next(w, Open(view)).screens[w.next + 1])
  {}
}
