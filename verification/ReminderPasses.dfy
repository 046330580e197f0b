/** Reminder passes that overlap: `reconcile()` suspends for the pending list, for
    the cancelling and for each scheduling, and nothing keeps a second one from
    starting meanwhile (apps/apple/Sunrise/Notifications/ReminderScheduler.swift:121-152). */
module ReminderPasses {
  import opened Wrappers
  import opened Sequences
  import opened Reminders

  /** A pass before it has read what is pending, and with the plan it made of that. */
  datatype Stage = Waiting(wanted: seq<string>) | Acting(plan: Reconciliation, withdrawn: bool, done: nat)

  datatype World = World(pending: seq<string>, passes: map<nat, Stage>, next: nat)

  datatype Step =
    | Begin(wanted: seq<string>)
    | Read(pass: nat)
    | Withdraw(pass: nat)
    | Add(pass: nat, taken: bool)
    | End(pass: nat)

  predicate Enabled(w: World, s: Step) {
    match s
    case Begin(_) => true
    case Read(p) => p in w.passes && w.passes[p].Waiting?
    case Withdraw(p) => p in w.passes && w.passes[p].Acting? && !w.passes[p].withdrawn
    case Add(p, _) => p in w.passes && w.passes[p].Acting? && w.passes[p].withdrawn && w.passes[p].done < |w.passes[p].plan.add|
    case End(p) => p in w.passes && w.passes[p].Acting? && w.passes[p].withdrawn && w.passes[p].done == |w.passes[p].plan.add|
  }

  /** What an enabled `Add` schedules. */
  function Adds(w: World, p: nat): string
    requires Enabled(w, Add(p, true))
  {
    w.passes[p].plan.add[w.passes[p].done]
  }

  function Next(w: World, s: Step): World
    requires Enabled(w, s)
  {
    match s
    case Begin(wanted) => World(w.pending, w.passes[w.next := Waiting(wanted)], w.next + 1)
    case Read(p) => w.(passes := w.passes[p := Acting(Reconcile(w.passes[p].wanted, w.pending), false, 0)])
    case Withdraw(p) =>
      World(Cancelled(w.pending, w.passes[p].plan.cancel), w.passes[p := w.passes[p].(withdrawn := true)], w.next)
    case Add(p, taken) =>
      var id := Adds(w, p);
      World(Scheduled(w.pending, [id], if taken then {} else {id}), w.passes[p := w.passes[p].(done := w.passes[p].done + 1)], w.next)
    case End(p) => w.(passes := w.passes - {p})
  }

  predicate CanRun(w: World, steps: seq<Step>)
    decreases |steps|
  {
    steps == [] || (Enabled(w, steps[0]) && CanRun(Next(w, steps[0]), steps[1..]))
  }

  function Run(w: World, steps: seq<Step>): World
    requires CanRun(w, steps)
    decreases |steps|
  {
    if steps == [] then w else Run(Next(w, steps[0]), steps[1..])
  }

  lemma {:induction false} RunsOn(w: World, a: seq<Step>, b: seq<Step>)
    requires CanRun(w, a) && CanRun(Run(w, a), b)
    ensures CanRun(w, a + b) && Run(w, a + b) == Run(Run(w, a), b)
    decreases |a|
  {
    if a == [] {
      assert a + b == b;
    } else {
      RunsOn(Next(w, a[0]), a[1..], b);
      assert (a + b)[1..] == a[1..] + b;
    }
  }

  // ---- One pass by itself ----

  /** The scheduling of what is left of a plan, with the refusals the OS makes. */
  function AddsOf(p: nat, add: seq<string>, refused: set<string>): seq<Step> {
    if add == [] then [] else [Add(p, add[0] !in refused)] + AddsOf(p, add[1..], refused)
  }

  lemma ScheduledOne(pending: seq<string>, id: string, refused: set<string>)
    ensures Scheduled(pending, [id], refused) == if id in refused || id in pending then pending else pending + [id]
  {
    assert [id][1..] == [];
  }

  lemma {:induction false} AddsSchedule(w: World, p: nat, refused: set<string>)
    requires p in w.passes && w.passes[p].Acting? && w.passes[p].withdrawn && w.passes[p].done <= |w.passes[p].plan.add|
    ensures var stage := w.passes[p];
            var steps := AddsOf(p, stage.plan.add[stage.done..], refused);
            && CanRun(w, steps)
            && Run(w, steps) == World(Scheduled(w.pending, stage.plan.add[stage.done..], refused),
                                      w.passes[p := stage.(done := |stage.plan.add|)], w.next)
    decreases |w.passes[p].plan.add| - w.passes[p].done
  {
    var stage := w.passes[p];
    var left := stage.plan.add[stage.done..];
    if left == [] {
      assert w.passes[p := stage.(done := |stage.plan.add|)] == w.passes;
    } else {
      var s := Add(p, left[0] !in refused);
      assert left[1..] == stage.plan.add[stage.done + 1..];
      ScheduledOne(w.pending, left[0], if s.taken then {} else {left[0]});
      AddsSchedule(Next(w, s), p, refused);
      assert AddsOf(p, left, refused)[1..] == AddsOf(p, left[1..], refused);
      var last := stage.(done := |stage.plan.add|);
      assert Next(w, s).passes[p := last] == w.passes[p := last];
    }
  }

  /** A pass that nothing overlaps, step by step, is the pass of `Reminders`. */
  lemma {:induction false} APassAloneIsAPass(w: World, wanted: seq<string>, refused: set<string>) returns (steps: seq<Step>)
    requires w.passes == map[]
    ensures CanRun(w, steps) && Run(w, steps) == World(Pass(w.pending, wanted, refused), map[], w.next + 1)
  {
    var p := w.next;
    var plan := Reconcile(wanted, w.pending);
    var w1 := Next(w, Begin(wanted));
    var w2 := Next(w1, Read(p));
    var w3 := Next(w2, Withdraw(p));
    AddsSchedule(w3, p, refused);
    assert plan.add[0..] == plan.add;
    var adds := AddsOf(p, plan.add, refused);
    var w4 := Run(w3, adds);
    assert Next(w4, End(p)).passes == map[];
    RunsOn(w3, adds, [End(p)]);
    var tail := adds + [End(p)];
    assert CanRun(w2, [Withdraw(p)] + tail) && Run(w2, [Withdraw(p)] + tail) == Run(w3, tail) by {
      assert ([Withdraw(p)] + tail)[1..] == tail;
    }
    assert CanRun(w1, [Read(p)] + ([Withdraw(p)] + tail)) by {
      assert ([Read(p)] + ([Withdraw(p)] + tail))[1..] == [Withdraw(p)] + tail;
    }
    steps := [Begin(wanted)] + ([Read(p)] + ([Withdraw(p)] + tail));
    assert steps[1..] == [Read(p)] + ([Withdraw(p)] + tail);
    assert ([Read(p)] + ([Withdraw(p)] + tail))[1..] == [Withdraw(p)] + tail;
  }

  // ---- Passes that overlap ----

  /** What a step does to one identifier: schedule it, withdraw it, or neither. */
  function Touch(w: World, s: Step, id: string): Option<bool>
    requires Enabled(w, s)
  {
    match s
    case Withdraw(p) => if id in w.passes[p].plan.cancel then Some(false) else None
    case Add(p, taken) => if taken && Adds(w, p) == id then Some(true) else None
    case _ => None
  }

  function LastTouch(w: World, steps: seq<Step>, id: string): Option<bool>
    requires CanRun(w, steps)
    decreases |steps|
  {
    if steps == [] then None
    else
      var later := LastTouch(Next(w, steps[0]), steps[1..], id);
      if later.Some? then later else Touch(w, steps[0], id)
  }

  lemma {:induction false} OneTouch(w: World, s: Step, id: string)
    requires Enabled(w, s)
    ensures id in Next(w, s).pending <==> if Touch(w, s, id).Some? then Touch(w, s, id).value else id in w.pending
  {
    if s.Add? {
      var added := Adds(w, s.pass);
      ScheduledHolds(w.pending, [added], if s.taken then {} else {added}, id);
    }
  }

  /** However passes overlap, an identifier is pending exactly as the last step to touch it left it. */
  lemma {:induction false} PendingIsTheLastTouch(w: World, steps: seq<Step>, id: string)
    requires CanRun(w, steps)
    ensures id in Run(w, steps).pending
        <==> if LastTouch(w, steps, id).Some? then LastTouch(w, steps, id).value else id in w.pending
    decreases |steps|
  {
    if steps != [] {
      OneTouch(w, steps[0], id);
      PendingIsTheLastTouch(Next(w, steps[0]), steps[1..], id);
    }
  }

  /** Every pass wants, schedules and withdraws only the app's own identifiers. */
  ghost predicate OursOnly(w: World) {
    forall p | p in w.passes ::
      match w.passes[p]
      case Waiting(wanted) => AllOurs(wanted)
      case Acting(plan, _, _) => AllOurs(plan.add) && AllOurs(plan.cancel)
  }

  /** Nobody else's notifications are touched by passes that overlap either. */
  lemma {:induction false} OthersAreLeftAlone(w: World, steps: seq<Step>, id: string)
    requires OursOnly(w) && CanRun(w, steps) && !IsOurs(id)
    requires forall s | s in steps && s.Begin? :: AllOurs(s.wanted)
    ensures id in Run(w, steps).pending <==> id in w.pending
    decreases |steps|
  {
    if steps != [] {
      assert steps[0] in steps;
      OneTouch(w, steps[0], id);
      OthersAreLeftAlone(Next(w, steps[0]), steps[1..], id);
    }
  }

  /** A pass in flight keeps the plan it made. */
  ghost predicate Follows(w: World, p: nat, plan: Reconciliation) {
    p < w.next && (p in w.passes ==> w.passes[p].Acting? && w.passes[p].plan == plan)
  }

  lemma {:induction false} PlansStand(w: World, steps: seq<Step>, p: nat, plan: Reconciliation)
    requires CanRun(w, steps) && Follows(w, p, plan)
    ensures Follows(Run(w, steps), p, plan)
    decreases |steps|
  {
    if steps != [] {
      PlansStand(Next(w, steps[0]), steps[1..], p, plan);
    }
  }

  /** The promise that an alert already held is never scheduled again, where passes
      overlap: a pass schedules again one the OS holds exactly when, since that
      pass read what was pending, the last to touch it scheduled it. */
  lemma {:induction false} ScheduledAgainIff(w: World, p: nat, steps: seq<Step>)
    requires p < w.next && Enabled(w, Read(p)) && AllOurs(w.passes[p].wanted)
    requires CanRun(Next(w, Read(p)), steps) && Enabled(Run(Next(w, Read(p)), steps), Add(p, true))
    ensures var v := Run(Next(w, Read(p)), steps);
            Adds(v, p) in v.pending <==> LastTouch(Next(w, Read(p)), steps, Adds(v, p)) == Some(true)
  {
    var u := Next(w, Read(p));
    PlansStand(u, steps, p, Reconcile(w.passes[p].wanted, w.pending));
    var id := Adds(Run(u, steps), p);
    assert id in Reconcile(w.passes[p].wanted, w.pending).add;
    PendingIsTheLastTouch(u, steps, id);
  }

  lemma RunOfFour(w: World, steps: seq<Step>, w1: World, w2: World, w3: World, w4: World)
    requires |steps| == 4
    requires Enabled(w, steps[0]) && w1 == Next(w, steps[0])
    requires Enabled(w1, steps[1]) && w2 == Next(w1, steps[1])
    requires Enabled(w2, steps[2]) && w3 == Next(w2, steps[2])
    requires Enabled(w3, steps[3]) && w4 == Next(w3, steps[3])
    ensures CanRun(w, steps) && Run(w, steps) == w4
  {
    var a, b, c, d := steps[1..], steps[2..], steps[3..], steps[4..];
    assert a[1..] == b && b[1..] == c && c[1..] == d;
    assert CanRun(w4, d) && Run(w4, d) == w4;
    assert CanRun(w3, c) && Run(w3, c) == w4;
    assert CanRun(w2, b) && Run(w2, b) == w4;
    assert CanRun(w1, a) && Run(w1, a) == w4;
  }

  /** Two passes that want one alert can both schedule it. */
  lemma {:induction false} TwoPassesCanScheduleTwice(id: string) returns (steps: seq<Step>)
    ensures CanRun(World([], map[], 0), steps)
    ensures var v := Run(World([], map[], 0), steps);
            Enabled(v, Add(1, true)) && Adds(v, 1) == id && id in v.pending
  {
    var w := World([], map[], 0);
    var plan := Reconciliation([id], []);
    assert Reconcile([id], []) == plan;
    var first := [Begin([id]), Begin([id]), Read(0), Read(1)];
    var second := [Withdraw(0), Withdraw(1), Add(0, true)];
    var w1 := Next(w, first[0]);
    var w2 := Next(w1, first[1]);
    var w3 := Next(w2, first[2]);
    var w4 := Next(w3, first[3]);
    RunOfFour(w, first, w1, w2, w3, w4);
    assert w4 == World([], map[0 := Acting(plan, false, 0), 1 := Acting(plan, false, 0)], 2);
    var w5 := Next(w4, second[0]);
    var w6 := Next(w5, second[1]);
    var w7 := Next(w6, second[2]);
    ScheduledOne([], id, {});
    assert w6.pending == [] && w7.pending == [id];
    var b, c := second[1..], second[2..];
    assert c[1..] == [] && CanRun(w7, []) && Run(w7, []) == w7;
    assert b[1..] == c && CanRun(w6, c) && Run(w6, c) == w7;
    assert CanRun(w5, b) && Run(w5, b) == w7;
    RunsOn(w, first, second);
    steps := first + second;
  }

  /** And a pass begun before can bring back what a later, finished one did not want. */
  lemma {:induction false} AnEarlierPassCanComeLast(id: string) returns (steps: seq<Step>)
    ensures |steps| == 8 && steps[0] == Begin([id]) && steps[2] == Begin([])
    ensures CanRun(World([], map[], 0), steps) && Run(World([], map[], 0), steps).pending == [id]
  {
    var w := World([], map[], 0);
    var plan, nothing := Reconciliation([id], []), Reconciliation([], []);
    assert Reconcile([id], []) == plan && Reconcile([], []) == nothing;
    var first := [Begin([id]), Read(0), Begin([]), Read(1)];
    var second := [Withdraw(1), End(1), Withdraw(0), Add(0, true)];
    var w1 := Next(w, first[0]);
    var w2 := Next(w1, first[1]);
    var w3 := Next(w2, first[2]);
    var w4 := Next(w3, first[3]);
    RunOfFour(w, first, w1, w2, w3, w4);
    assert w4 == World([], map[0 := Acting(plan, false, 0), 1 := Acting(nothing, false, 0)], 2);
    var w5 := Next(w4, second[0]);
    var w6 := Next(w5, second[1]);
    var w7 := Next(w6, second[2]);
    var w8 := Next(w7, second[3]);
    ScheduledOne([], id, {});
    assert w7.pending == [] && w8.pending == [id];
    RunOfFour(w4, second, w5, w6, w7, w8);
    RunsOn(w, first, second);
    steps := first + second;
  }
}
