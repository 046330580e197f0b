/** Background sync: one run at a time, joined by whoever asks while it is in
    flight (apps/apple/Sunrise/Sync/BackgroundSync.swift). A caller is the number
    it was given; an answer is what its continuation was resumed with. */
module BackgroundSync {
  import opened Wrappers

  datatype Outcome = NewData | NoData | Failed

  datatype CoreOutcome = CoreOutcome(completed: bool, changes: nat) {
    function Read(): Outcome {
      if changes > 0 then NewData else if completed then NoData else Failed
    }
  }

  /** The coordinator's fields, the tasks alive, and everything that has happened:
      who joined which run, who was told what, how each run ended, which were cut short. */
  datatype Sync = Sync(
    inFlight: Option<nat>,
    waiters: seq<nat>,
    watchdog: Option<nat>,
    alive: set<nat>,
    callers: nat,
    runs: nat,
    joined: map<nat, nat>,
    answers: map<nat, Outcome>,
    ended: map<nat, Outcome>,
    expired: set<nat>)

  const Idle: Sync := Sync(None, [], None, {}, 0, 0, map[], map[], map[], {})

  function Answered(s: Sync, outcome: Outcome): Sync {
    s.(waiters := [], answers := s.answers + (map c | c in s.waiters :: outcome))
  }

  function Started(s: Sync): Sync {
    s.(inFlight := Some(s.runs), watchdog := Some(s.runs), alive := s.alive + {s.runs}, runs := s.runs + 1)
  }

  function Joined(s: Sync): Sync
    requires s.inFlight.Some?
  {
    s.(waiters := s.waiters + [s.callers], callers := s.callers + 1, joined := s.joined[s.callers := s.inFlight.value])
  }

  /** `sync()`, up to where its caller waits. */
  function Called(s: Sync): Sync {
    Joined(if s.inFlight.None? then Started(s) else s)
  }

  function Expired(s: Sync): Sync {
    if s.inFlight.None? then s else Answered(s, Failed).(expired := s.expired + {s.inFlight.value})
  }

  /** The watchdog of a run: it fires once. */
  function DeadlinePassed(s: Sync): Sync {
    Expired(s.(watchdog := None))
  }

  function Finished(s: Sync, run: nat, outcome: Outcome): Sync {
    var over := s.(alive := s.alive - {run}, ended := s.ended[run := outcome]);
    if s.inFlight != Some(run) then over
    else Answered(over.(inFlight := None, watchdog := None), outcome)
  }

  datatype Step = Call | Expire | Deadline | Finish(run: nat, outcome: Outcome)

  predicate Enabled(s: Sync, step: Step) {
    match step
    case Call => true
    case Expire => true
    case Deadline => s.watchdog.Some?
    case Finish(run, _) => run in s.alive
  }

  function Next(s: Sync, step: Step): Sync
    requires Enabled(s, step)
  {
    match step
    case Call => Called(s)
    case Expire => Expired(s)
    case Deadline => DeadlinePassed(s)
    case Finish(run, outcome) => Finished(s, run, outcome)
  }

  predicate CanRun(s: Sync, steps: seq<Step>)
    decreases |steps|
  {
    steps == [] || (Enabled(s, steps[0]) && CanRun(Next(s, steps[0]), steps[1..]))
  }

  function Run(s: Sync, steps: seq<Step>): Sync
    requires CanRun(s, steps)
    decreases |steps|
  {
    if steps == [] then s else Run(Next(s, steps[0]), steps[1..])
  }

  // ---- What every run keeps ----

  /** One task alive at most, and it is the one in flight. */
  ghost predicate SingleFlight(s: Sync) {
    && s.alive == (if s.inFlight.Some? then {s.inFlight.value} else {})
    && (s.inFlight.Some? ==> s.inFlight.value < s.runs && s.inFlight.value !in s.ended)
    && (s.watchdog.Some? ==> s.watchdog == s.inFlight)
    && (forall r | r in s.ended :: r < s.runs)
    && (forall r: nat :: r < s.runs && s.inFlight != Some(r) ==> r in s.ended)
  }

  /** Every caller is waiting once or has been answered, and never both. */
  ghost predicate OneAnswerEach(s: Sync) {
    && (forall i, j | 0 <= i < j < |s.waiters| :: s.waiters[i] != s.waiters[j])
    && (forall c: nat :: c < s.callers <==> c in s.waiters || c in s.answers)
    && (forall c | c in s.waiters :: c !in s.answers)
    && (forall c: nat :: c < s.callers <==> c in s.joined)
  }

  /** A caller waits only on the run in flight, and is told how its own run ended,
      or `failed` if that run was cut short. */
  ghost predicate AnswersAreTheRuns(s: Sync) {
    && (forall c | c in s.waiters :: c in s.joined && s.inFlight == Some(s.joined[c]))
    && (forall c | c in s.answers :: c in s.joined
          && (|| (s.joined[c] in s.ended && s.answers[c] == s.ended[s.joined[c]])
              || (s.joined[c] in s.expired && s.answers[c] == Failed)))
  }

  ghost predicate Sound(s: Sync) {
    SingleFlight(s) && OneAnswerEach(s) && AnswersAreTheRuns(s)
  }

  /** Nobody waits on no run. */
  lemma {:induction false} NobodyWaitsForNothing(s: Sync)
    requires AnswersAreTheRuns(s)
    ensures s.inFlight.None? ==> s.waiters == []
  {
    if s.waiters != [] {
      var c := s.waiters[0];
      assert c in s.joined && s.inFlight == Some(s.joined[c]);
    }
  }

  lemma {:induction false} StartKeepsSound(s: Sync)
    requires Sound(s) && s.inFlight.None?
    ensures Sound(Started(s))
  {
    NobodyWaitsForNothing(s);
  }

  lemma {:induction false} JoinKeepsSound(s: Sync)
    requires Sound(s) && s.inFlight.Some?
    ensures Sound(Joined(s))
  {
    var s' := Joined(s);
    assert forall i | 0 <= i < |s.waiters| :: s'.waiters[i] == s.waiters[i] && s.waiters[i] in s.waiters;
    assert forall c :: c in s'.waiters <==> c in s.waiters || c == s.callers;
    assert s.callers !in s.joined && s.callers !in s.answers && s.callers !in s.waiters;
  }

  lemma {:induction false} CallKeepsSound(s: Sync)
    requires Sound(s)
    ensures Sound(Called(s))
  {
    if s.inFlight.None? {
      StartKeepsSound(s);
      JoinKeepsSound(Started(s));
    } else {
      JoinKeepsSound(s);
    }
  }

  lemma {:induction false} EndingKeepsSound(s: Sync, step: Step)
    requires Sound(s) && Enabled(s, step) && !step.Call?
    ensures Sound(Next(s, step))
  {
    assert forall c | c in s.waiters :: c !in s.answers;
  }

  lemma {:induction false} EveryRunIsSound(s: Sync, steps: seq<Step>)
    requires Sound(s) && CanRun(s, steps)
    ensures Sound(Run(s, steps))
    decreases |steps|
  {
    if steps != [] {
      if steps[0].Call? {
        CallKeepsSound(s);
      } else {
        EndingKeepsSound(s, steps[0]);
      }
      EveryRunIsSound(Next(s, steps[0]), steps[1..]);
    }
  }

  /** Over every run: at most one task is alive, and every caller so far has
      exactly one place, waiting on that task or answered as its own run ended. */
  lemma {:induction false} NeverTwoRunsAndOneAnswerEach(steps: seq<Step>)
    requires CanRun(Idle, steps)
    ensures var s := Run(Idle, steps);
            && |s.alive| <= 1
            && (forall c: nat | c < s.callers :: (c in s.waiters) != (c in s.answers))
            && (forall c | c in s.waiters :: c in s.joined && s.joined[c] in s.alive)
  {
    EveryRunIsSound(Idle, steps);
  }

  /** An answer once given is never changed. */
  lemma {:induction false} AnswersStand(s: Sync, steps: seq<Step>, c: nat)
    requires Sound(s) && CanRun(s, steps) && c in s.answers
    ensures c in Run(s, steps).answers && Run(s, steps).answers[c] == s.answers[c]
    decreases |steps|
  {
    if steps != [] {
      if steps[0].Call? {
        CallKeepsSound(s);
      } else {
        EndingKeepsSound(s, steps[0]);
      }
      AnswersStand(Next(s, steps[0]), steps[1..], c);
    }
  }

  /** A run that is stuck is the only one until it ends: whatever else happens, no other starts. */
  lemma {:induction false} AStuckRunIsNotOverlapped(s: Sync, steps: seq<Step>, run: nat)
    requires Sound(s) && CanRun(s, steps) && s.inFlight == Some(run)
    requires forall step | step in steps :: !step.Finish?
    ensures Run(s, steps).inFlight == Some(run) && Run(s, steps).runs == s.runs && Run(s, steps).alive == {run}
    decreases |steps|
  {
    if steps != [] {
      assert steps[0] in steps;
      if steps[0].Call? {
        CallKeepsSound(s);
      } else {
        EndingKeepsSound(s, steps[0]);
      }
      AStuckRunIsNotOverlapped(Next(s, steps[0]), steps[1..], run);
    }
  }

  // ---- The deadline ----

  /** The run neither ended nor was cut short by the OS. */
  predicate Undisturbed(steps: seq<Step>) {
    forall step | step in steps :: step.Call? || step.Deadline?
  }

  /** Nothing is answered between calls, and a deadline answers everyone who waits. */
  lemma {:induction false} AWaiterIsAnsweredIff(s: Sync, steps: seq<Step>, c: nat)
    requires Sound(s) && CanRun(s, steps) && Undisturbed(steps) && c in s.waiters
    ensures c in Run(s, steps).answers <==> Deadline in steps
    ensures Deadline in steps ==> s.watchdog.Some? && Run(s, steps).answers[c] == Failed
    ensures Deadline !in steps ==> c in Run(s, steps).waiters
    decreases |steps|
  {
    if steps != [] {
      assert steps[0] in steps;
      var s' := Next(s, steps[0]);
      if steps[0].Call? {
        CallKeepsSound(s);
        assert forall i | 0 <= i < |s.waiters| :: s'.waiters[i] == s.waiters[i];
        AWaiterIsAnsweredIff(s', steps[1..], c);
      } else {
        EndingKeepsSound(s, steps[0]);
        AnswersStand(s', steps[1..], c);
      }
    }
  }

  /** `sync()` is meant to answer by the deadline at the latest. What one call gets:
      joined to a run whose watchdog has not fired, an answer in every run of steps in
      which the deadline passes, whoever else calls; joined after it has fired,
      none in any run of steps, until the stuck run ends or the OS steps in. */
  lemma {:induction false} ACallIsAnsweredByTheDeadlineIff(s: Sync)
    requires Sound(s)
    ensures (exists steps :: CanRun(Called(s), steps) && Undisturbed(steps) && s.callers in Run(Called(s), steps).answers)
        <==> (s.inFlight.Some? ==> s.watchdog.Some?)
    ensures forall steps | CanRun(Called(s), steps) && Undisturbed(steps) ::
              if Deadline in steps then s.callers in Run(Called(s), steps).answers else s.callers in Run(Called(s), steps).waiters
  {
    var c, s' := s.callers, Called(s);
    CallKeepsSound(s);
    assert s'.waiters[|s'.waiters| - 1] == c;
    forall steps | CanRun(s', steps) && Undisturbed(steps)
      ensures if Deadline in steps then c in Run(s', steps).answers else c in Run(s', steps).waiters
      ensures c in Run(s', steps).answers ==> s'.watchdog.Some?
    {
      AWaiterIsAnsweredIff(s', steps, c);
    }
    if s'.watchdog.Some? {
      var steps := [Deadline];
      assert CanRun(Next(s', Deadline), steps[1..]);
      assert CanRun(s', steps) && Undisturbed(steps) && Deadline in steps;
    }
  }

  /** And the state is reached: one caller, one deadline. */
  lemma TheDeadlineLeavesTheRunInFlight()
    ensures CanRun(Idle, [Call, Deadline])
    ensures var s := Run(Idle, [Call, Deadline]); s.inFlight.Some? && s.watchdog.None? && s.answers == map[0 := Failed]
  {
    var steps := [Call, Deadline];
    assert steps[1..] == [Deadline] && steps[1..][1..] == [];
    var s := Next(Idle, Call);
    assert Enabled(s, Deadline);
    assert CanRun(Next(s, Deadline), []);
    assert CanRun(s, [Deadline]);
  }

  // ---- The coordinator ----

  class Coordinator {
    var inFlight: Option<nat>
    var waiters: seq<nat>
    var watchdog: Option<nat>
    ghost var alive: set<nat>
    var callers: nat
    var runs: nat
    ghost var joined: map<nat, nat>
    var answers: map<nat, Outcome>
    ghost var ended: map<nat, Outcome>
    ghost var expired: set<nat>

    constructor ()
      ensures View() == Idle
    {
      inFlight, waiters, watchdog, alive, callers, runs := None, [], None, {}, 0, 0;
      joined, answers, ended, expired := map[], map[], map[], {};
    }

    ghost function View(): Sync
      reads this
    {
      Sync(inFlight, waiters, watchdog, alive, callers, runs, joined, answers, ended, expired)
    }

    method Call() returns (caller: nat)
      modifies this
      ensures View() == Called(old(View())) && caller == old(callers)
    {
      if inFlight.None? {
        Start();
      }
      caller := callers;
      callers := callers + 1;
      waiters := waiters + [caller];
      joined := joined[caller := inFlight.value];
    }

    method Start()
      requires inFlight.None?
      modifies this
      ensures View() == Started(old(View()))
    {
      inFlight, watchdog := Some(runs), Some(runs);
      alive := alive + {runs};
      runs := runs + 1;
    }

    method Expire()
      modifies this
      ensures View() == Expired(old(View()))
    {
      if inFlight.Some? {
        expired := expired + {inFlight.value};
        Answer(Failed);
      }
    }

    method Deadline()
      modifies this
      ensures View() == DeadlinePassed(old(View()))
    {
      watchdog := None;
      Expire();
    }

    method Finish(run: nat, outcome: Outcome)
      modifies this
      ensures View() == Finished(old(View()), run, outcome)
    {
      alive := alive - {run};
      ended := ended[run := outcome];
      if inFlight == Some(run) {
        inFlight, watchdog := None, None;
        Answer(outcome);
      }
    }

    method Answer(outcome: Outcome)
      modifies this`waiters, this`answers
      ensures View() == Answered(old(View()), outcome)
    {
      var answered := waiters;
      waiters := [];
      for i := 0 to |answered|
        invariant waiters == [] && answers == old(answers) + (map c | c in answered[..i] :: outcome)
      {
        answers := answers[answered[i] := outcome];
        assert answered[..i + 1] == answered[..i] + [answered[i]];
      }
      assert answered[..|answered|] == answered;
    }
  }
}
