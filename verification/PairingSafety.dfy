/** What the six digits are for (apps/apple/Sunrise/Pairing/PairingModel.swift,
    crates/sunrise-pairing/src/protocol/grant.rs). */
module PairingSafety {
  import opened Wrappers
  import opened Pairing
  import opened PairingRuns

  /** The user at a device says the digits match only when the other device has shown them. */
  predicate Truthful(w: World, s: Step, side: Side) {
    s.side == side && s.action == Answer(true) ==>
      Digits(At(w, side)) <= if side.New? then w.shownByHolder else w.shownByAdded
  }

  predicate TruthfulRun(w: World, steps: seq<Step>, side: Side)
    decreases |steps|
  {
    steps == [] || (Truthful(w, steps[0], side) && TruthfulRun(Next(w, steps[0]), steps[1..], side))
  }

  /** What was agreed to at a device the other one has shown. */
  predicate Compared(w: World, side: Side) {
    if side.New? then w.agreedAtAdded <= w.shownByHolder else w.agreedAtHolder <= w.shownByAdded
  }

  lemma {:induction false} TruthfulRunsCompare(w: World, steps: seq<Step>, side: Side)
    requires Compared(w, side) && TruthfulRun(w, steps, side)
    ensures Compared(Run(w, steps), side)
    decreases |steps|
  {
    if steps != [] {
      TruthfulRunsCompare(Next(w, steps[0]), steps[1..], side);
    }
  }

  /** Any courier, any number of attempts, any interleaving. If the user at the
      device being added says "matched" only of digits the holder has shown, a
      root is adopted only of the holder's account, only after both users agreed
      to the digits of one transcript, and only with a certificate for the keys
      minted in that very attempt. */
  lemma {:induction false} AdoptsOnlyWhatBothAgreedTo(steps: seq<Step>, x: Adoption)
    requires CanRun(Start, steps) && TruthfulRun(Start, steps, New) && x in Run(Start, steps).adopted
    ensures var w := Run(Start, steps);
            && x.root == Vault
            && x.t in w.agreedAtAdded && x.t in w.agreedAtHolder && x.t in w.shownByHolder
            && x.t.eI.Own? && x.keys == Minted(x.t.eI.attempt)
  {
    EveryRunIsSound(Start, steps);
    TruthfulRunsCompare(Start, steps, New);
  }

  /** And if the user at the holder does, the vault is only ever sealed for a
      device that showed those digits, for keys it minted, under a transcript the
      courier is no party to and so cannot open. */
  lemma {:induction false} TheVaultIsSealedOnlyForWhoShowedTheDigits(steps: seq<Step>, wire: Wire)
    requires CanRun(Start, steps) && TruthfulRun(Start, steps, Holder) && wire in Run(Start, steps).net
    requires wire.Sealed? && wire.plain.Grant?
    ensures wire.t in Run(Start, steps).shownByAdded && !Party(wire.t)
    ensures wire.t.eI.Own? && wire.plain.keys == Minted(wire.t.eI.attempt)
  {
    EveryRunIsSound(Start, steps);
    TruthfulRunsCompare(Start, steps, Holder);
  }

  // ---- A device that has stopped ----

  function AttemptOf(wire: Wire): nat {
    if wire.Sealed? && wire.t.eI.Own? && wire.byInitiator then wire.t.eI.attempt
    else if wire.Sealed? && wire.t.eR.Own? then wire.t.eR.attempt
    else 0
  }

  /** The attempt `n` of a device is behind it, or is the last and its session is gone. */
  predicate Ended(d: Device, n: nat) {
    d.attempt > n || (d.attempt == n && d.session.None?)
  }

  /** The step cancels at the side, or says there that the digits differ. */
  predicate Stops(w: World, s: Step, side: Side) {
    var d := At(w, side);
    s.side == side && (s.action.Cancel? || (s.action == Answer(false) && d.phase.Comparing? && d.session.Some?))
  }

  lemma StoppingEnds(w: World, s: Step, side: Side)
    requires Stops(w, s, side) && At(w, side).side == side
    ensures Ended(At(Next(w, s), side), At(w, side).attempt)
  {}

  /** A device never goes back to an attempt, and an attempt never gets its session back. */
  lemma KeepsItsAttempt(d: Device, s: Step)
    ensures KeptOrLater(d, React(d, s).device)
  {
    match s.action
    case Submit(wire) => SubmittingKeepsItsAttempt(d, wire, s.vaultOpen);
    case VaultAnswers(id) =>
      if CanSeal(d, id) {
        AnsweringKeepsTheRest(d, id);
      }
    case _ =>
  }

  predicate KeptOrLater(d: Device, after: Device) {
    after.attempt > d.attempt || (after.attempt == d.attempt && (d.session.None? ==> after.session.None?))
  }

  lemma SubmittingKeepsItsAttempt(d: Device, wire: Wire, vaultOpen: bool)
    ensures KeptOrLater(d, Submitted(d, wire, vaultOpen).device)
  {
    if d.phase.Awaiting? {
      match d.phase.leg
      case CodeLeg =>
        if wire.Code? {
          SteppingKeepsTheRest(Scanned(d, wire.key), CodeLeg, None);
        }
      case First => HearingKeepsWaits(d, wire, First);
      case Second => HearingKeepsWaits(d, wire, Second);
      case Third => HearingKeepsWaits(d, wire, Third);
      case _ =>
    }
  }

  /** A handshake message read changes nothing but the session it is read into. */
  lemma HearingKeepsWaits(d: Device, wire: Wire, leg: Leg)
    ensures var after := ReceivedOrFailed(d, wire, leg);
            after == d.(phase := after.phase, session := after.session) && (d.session.None? ==> after.session.None?)
  {
    if Received(d, wire).Some? {
      SteppingKeepsTheRest(Received(d, wire).value, leg, None);
    }
  }

  /** Nothing further comes of an attempt that has ended at the device being added. */
  lemma {:induction false} AnEndedAttemptAdoptsNothing(w: World, steps: seq<Step>, n: nat)
    requires Sound(w) && CanRun(w, steps) && Ended(w.added, n)
    ensures forall x | x in Run(w, steps).adopted && x.keys == Minted(n) :: x in w.adopted
    decreases |steps|
  {
    if steps != [] {
      NextIsSound(w, steps[0]);
      KeepsItsAttempt(w.added, steps[0]);
      AdoptsForItsAttempt(w, steps[0], n);
      AnEndedAttemptAdoptsNothing(Next(w, steps[0]), steps[1..], n);
    }
  }

  lemma {:induction false} AdoptsForItsAttempt(w: World, s: Step, n: nat)
    requires Sound(w) && Ended(w.added, n)
    ensures forall x | x in Next(w, s).adopted && x.keys == Minted(n) :: x in w.adopted
  {
    if s.action.Submit? && Open(w.added, s.action.wire).Some? && w.added.session.value.joiner.Some? {
      assert w.added.session.value.joiner.value.keys == Minted(w.added.attempt);
    }
  }

  /** A user who cancels, or says the digits differ, at the device being added:
      whatever the courier, the other user and the calls still suspended do after
      that, no root is adopted any more in the attempt that was stopped. */
  lemma {:induction false} AStoppedAttemptAdoptsNothing(w: World, s: Step, steps: seq<Step>, x: Adoption)
    requires Sound(w) && Stops(w, s, New) && Enabled(w, s) && CanRun(Next(w, s), steps)
    requires x in Run(Next(w, s), steps).adopted && x.keys == Minted(w.added.attempt)
    ensures x in w.adopted
  {
    NextIsSound(w, s);
    StoppingEnds(w, s, New);
    AnEndedAttemptAdoptsNothing(Next(w, s), steps, w.added.attempt);
  }

  /** So digits said to differ are never adopted on. */
  lemma {:induction false} ARejectionIsForGood(w: World, s: Step, steps: seq<Step>, x: Adoption)
    requires Sound(w) && w.added.phase.Comparing? && w.added.Handshake() == Some(x.t) && x.t !in w.agreedAtAdded
    requires s == Step(New, Answer(false), s.vaultOpen) && CanRun(Next(w, s), steps)
    ensures x !in Run(Next(w, s), steps).adopted
  {
    NextIsSound(w, s);
    EveryRunIsSound(Next(w, s), steps);
    if x in Run(Next(w, s), steps).adopted {
      AStoppedAttemptAdoptsNothing(w, s, steps, x);
      assert false;
    }
  }

  // ---- What a stopped attempt still seals ----

  /** A call of that attempt still waits for the vault to seal. */
  predicate PendingIn(d: Device, n: nat, id: nat) {
    CanSeal(d, id) && d.waits[id].attempt == n
  }

  /** The step is the vault sealing a text for a call of that attempt at the holder. */
  predicate Seals(w: World, s: Step, n: nat) {
    && s.side.Holder? && s.action.VaultAnswers? && PendingIn(w.holder, n, s.action.id)
    && VaultsAnswer(w.holder, s.action.id).1.Some?
  }

  /** The vault seals a text of that attempt somewhere in the run. */
  predicate SealsIn(w: World, steps: seq<Step>, n: nat)
    decreases |steps|
  {
    steps != [] && (Seals(w, steps[0], n) || SealsIn(Next(w, steps[0]), steps[1..], n))
  }

  /** Answered in this order, some call of that attempt is given a text. */
  predicate SealsBy(d: Device, n: nat, ids: seq<nat>)
    decreases |ids|
  {
    ids != []
    && (if PendingIn(d, n, ids[0])
        then VaultsAnswer(d, ids[0]).1.Some? || SealsBy(SealedFor(d, ids[0]), n, ids[1..])
        else SealsBy(d, n, ids[1..]))
  }

  /** There is an order of answering them in which one is. */
  ghost predicate CanYetSeal(d: Device, n: nat) {
    exists ids: seq<nat> :: SealsBy(d, n, ids)
  }

  /** Some run from here seals for that attempt. */
  ghost predicate MayYetSeal(w: World, n: nat) {
    exists steps :: CanRun(w, steps) && SealsIn(w, steps, n)
  }

  /** To the calls of an attempt that has ended, the two devices are the same one. */
  ghost predicate Alike(d: Device, e: Device, n: nat) {
    && d.side == e.side && Ended(d, n) && Ended(e, n) && SessionOf(d, n) == SessionOf(e, n)
    && forall id :: PendingIn(d, n, id) || PendingIn(e, n, id) ==>
         id in d.waits && id in e.waits && d.waits[id] == e.waits[id]
  }

  lemma AnsweringAlike(d: Device, e: Device, n: nat, id: nat)
    requires Alike(d, e, n) && PendingIn(d, n, id)
    ensures PendingIn(e, n, id) && VaultsAnswer(d, id) == VaultsAnswer(e, id)
    ensures Alike(SealedFor(d, id), SealedFor(e, id), n)
  {}

  lemma {:induction false} AlikeSealsAlike(d: Device, e: Device, n: nat, ids: seq<nat>)
    requires Alike(d, e, n) && SealsBy(d, n, ids)
    ensures SealsBy(e, n, ids)
    decreases |ids|
  {
    if PendingIn(d, n, ids[0]) {
      AnsweringAlike(d, e, n, ids[0]);
      if VaultsAnswer(d, ids[0]).1.None? {
        AlikeSealsAlike(SealedFor(d, ids[0]), SealedFor(e, ids[0]), n, ids[1..]);
      }
    } else {
      AlikeSealsAlike(d, e, n, ids[1..]);
    }
  }

  /** Whatever else happens at the holder is nothing to the calls of an attempt that has ended. */
  lemma {:induction false} OthersLeaveItAlike(d: Device, s: Step, n: nat)
    requires d.side.Holder? && Ended(d, n) && !(s.action.VaultAnswers? && PendingIn(d, n, s.action.id))
    requires forall id | id in d.waits :: id < d.next
    ensures Alike(React(d, s).device, d, n)
  {
    KeepsItsSide(d, s);
    KeepsItsAttempt(d, s);
    match s.action
    case Submit(wire) => SubmittingLeavesItAlike(d, wire, s.vaultOpen, n);
    case VaultAnswers(id) =>
      if CanSeal(d, id) {
        AnsweringKeepsTheRest(d, id);
      }
    case Advance =>
      if d.phase.HandOff? {
        SteppingKeepsTheRest(d, d.phase.leg, None);
      }
    case CallResumes(id) =>
      ResumingLeavesItAlike(d, id, s, n);
    case _ =>
  }

  lemma ResumingLeavesItAlike(d: Device, id: nat, s: Step, n: nat)
    requires d.side.Holder? && Ended(d, n) && s.action == CallResumes(id)
    ensures Alike(React(d, s).device, d, n)
  {
    if CanResume(d, id) {
      SteppingKeepsTheRest(d.(waits := d.waits - {id}), RequestLeg, d.waits[id].answer.GetOr(None));
    }
  }

  lemma SubmittingLeavesItAlike(d: Device, wire: Wire, vaultOpen: bool, n: nat)
    requires d.side.Holder? && Ended(d, n) && forall id | id in d.waits :: id < d.next
    ensures Alike(Submitted(d, wire, vaultOpen).device, d, n)
  {
    if d.phase.Awaiting? {
      match d.phase.leg
      case CodeLeg =>
        if wire.Code? {
          SteppingKeepsTheRest(Scanned(d, wire.key), CodeLeg, None);
        }
      case First => HearingKeepsWaits(d, wire, First);
      case Second => HearingKeepsWaits(d, wire, Second);
      case Third => HearingKeepsWaits(d, wire, Third);
      case _ =>
    }
  }

  /** What a run seals for an ended attempt, some order of answering its calls seals at once. */
  lemma {:induction false} SealedWasAskedFor(w: World, steps: seq<Step>, n: nat) returns (ids: seq<nat>)
    requires Sound(w) && CanRun(w, steps) && Ended(w.holder, n) && SealsIn(w, steps, n)
    ensures SealsBy(w.holder, n, ids)
    decreases |steps|
  {
    var s := steps[0];
    if Seals(w, s, n) {
      return [s.action.id];
    }
    var v := Next(w, s);
    NextIsSound(w, s);
    KeepsItsAttempt(w.holder, s);
    ids := SealedWasAskedFor(v, steps[1..], n);
    if s.side.Holder? && s.action.VaultAnswers? && PendingIn(w.holder, n, s.action.id) {
      var rest := ids;
      ids := [s.action.id] + rest;
      assert ids[1..] == rest;
    } else if s.side.Holder? {
      OthersLeaveItAlike(w.holder, s, n);
      AlikeSealsAlike(v.holder, w.holder, n, ids);
    }
  }

  lemma {:induction false} AskingSeals(w: World, n: nat, ids: seq<nat>) returns (steps: seq<Step>)
    requires SealsBy(w.holder, n, ids)
    ensures CanRun(w, steps) && SealsIn(w, steps, n)
    decreases |ids|
  {
    if PendingIn(w.holder, n, ids[0]) {
      var s := Step(Holder, VaultAnswers(ids[0]), true);
      var v := Next(w, s);
      if VaultsAnswer(w.holder, ids[0]).1.Some? {
        steps := [s];
        assert steps[1..] == [] && CanRun(v, []);
      } else {
        assert v.holder == SealedFor(w.holder, ids[0]);
        var rest := AskingSeals(v, n, ids[1..]);
        steps := [s] + rest;
        assert steps[1..] == rest;
      }
    } else {
      steps := AskingSeals(w, n, ids[1..]);
    }
  }

  /** A cancel, or digits said to differ, at the holder: the vault still seals for
      the attempt that was stopped, in some run from there, exactly when a call
      suspended in it is one the vault will answer with a text. A channel the digits
      have opened is not closed by either. */
  lemma {:induction false} AStoppedAttemptSealsIff(w: World, s: Step)
    requires Sound(w) && Stops(w, s, Holder) && Enabled(w, s)
    ensures MayYetSeal(Next(w, s), w.holder.attempt) <==> CanYetSeal(Next(w, s).holder, w.holder.attempt)
  {
    var v, n := Next(w, s), w.holder.attempt;
    StoppingEnds(w, s, Holder);
    NextIsSound(w, s);
    if MayYetSeal(v, n) {
      var steps :| CanRun(v, steps) && SealsIn(v, steps, n);
      var ids := SealedWasAskedFor(v, steps, n);
    }
    if CanYetSeal(v.holder, n) {
      var ids: seq<nat> :| SealsBy(v.holder, n, ids);
      var steps := AskingSeals(v, n, ids);
    }
  }

  /** With one call suspended in it, that is when the vault answers it with a text
      now: when its channel was open, and the request it was given opens on it and
      is one for this account. */
  lemma {:induction false} OneSuspendedCallSealsIff(d: Device, n: nat, id: nat)
    requires PendingIn(d, n, id) && forall other :: PendingIn(d, n, other) ==> other == id
    ensures CanYetSeal(d, n) <==> VaultsAnswer(d, id).1.Some?
    ensures VaultsAnswer(d, id).1.Some? ==> SessionOf(d, n).Some? && SessionOf(d, n).value.confirmed
  {
    if VaultsAnswer(d, id).1.Some? {
      var ids: seq<nat> := [id];
      assert SealsBy(d, n, ids);
    }
    if CanYetSeal(d, n) {
      var ids: seq<nat> :| SealsBy(d, n, ids);
      OnlyThatOneSeals(d, n, id, ids);
    }
  }

  lemma {:induction false} OnlyThatOneSeals(d: Device, n: nat, id: nat, ids: seq<nat>)
    requires PendingIn(d, n, id) && forall other :: PendingIn(d, n, other) ==> other == id
    requires SealsBy(d, n, ids)
    ensures VaultsAnswer(d, id).1.Some?
    decreases |ids|
  {
    if ids[0] != id {
      OnlyThatOneSeals(d, n, id, ids[1..]);
    } else if VaultsAnswer(d, id).1.None? {
      var after := SealedFor(d, id);
      assert forall other :: PendingIn(after, n, other) ==> other != id && PendingIn(d, n, other);
      NothingLeftSealsNothing(after, n, ids[1..]);
    }
  }

  lemma {:induction false} NothingLeftSealsNothing(d: Device, n: nat, ids: seq<nat>)
    requires forall id :: !PendingIn(d, n, id)
    ensures !SealsBy(d, n, ids)
    decreases |ids|
  {
    if ids != [] {
      NothingLeftSealsNothing(d, n, ids[1..]);
    }
  }

  /** The texts a device shows, or the vault has sealed for it and it has not shown yet. */
  function Texts(d: Device): set<Wire> {
    Handed(d) + set id | id in d.waits && d.waits[id].answer.Some? && d.waits[id].answer.value.Some? :: d.waits[id].answer.value.value
  }

  /** What the holder has sealed for an attempt, and given out or not. */
  predicate SealedIn(w: World, wire: Wire, n: nat) {
    wire.Sealed? && !wire.byInitiator && AttemptOf(wire) == n && wire in w.net + Texts(w.holder)
  }

  /** And what is ever given out under an attempt that has ended was sealed before, or is sealed in that way. */
  lemma {:induction false} AnEndedAttemptGivesOut(w: World, steps: seq<Step>, wire: Wire, n: nat)
    requires Sound(w) && CanRun(w, steps) && Ended(w.holder, n) && SealedIn(Run(w, steps), wire, n)
    ensures SealedIn(w, wire, n) || SealsIn(w, steps, n)
    decreases |steps|
  {
    if steps != [] {
      NextIsSound(w, steps[0]);
      KeepsItsAttempt(w.holder, steps[0]);
      AnEndedAttemptGivesOut(Next(w, steps[0]), steps[1..], wire, n);
      if SealedIn(Next(w, steps[0]), wire, n) && !Seals(w, steps[0], n) {
        SealsForItsAttempt(w, steps[0], wire, n);
      }
    }
  }

  lemma {:induction false} SealsForItsAttempt(w: World, s: Step, wire: Wire, n: nat)
    requires Sound(w) && Enabled(w, s) && Ended(w.holder, n) && SealedIn(Next(w, s), wire, n) && !Seals(w, s, n)
    ensures SealedIn(w, wire, n)
  {
    NextIsSound(w, s);
    if s.side.Holder? && wire !in w.net {
      TextsAreOfItsAttempt(w.holder, s, wire);
    }
  }

  /** What a holder newly has is no sealed text, or what the vault has just answered a call with. */
  lemma {:induction false} TextsAreOfItsAttempt(d: Device, s: Step, wire: Wire)
    requires d.side.Holder? && wire.Sealed? && wire in Texts(React(d, s).device)
    ensures wire in Texts(d)
         || (s.action.VaultAnswers? && CanSeal(d, s.action.id) && VaultsAnswer(d, s.action.id).1 == Some(wire)
             && AttemptOf(wire) == d.waits[s.action.id].attempt)
  {
    match s.action
    case VaultAnswers(id) =>
      if CanSeal(d, id) {
        SealsUnderItsOwn(d, id, wire);
      }
    case CallResumes(id) =>
      if CanResume(d, id) {
        ResumingShowsWhatWasSealed(d, id, wire);
      }
    case Submit(pasted) => SubmittingShowsNothingSealed(d, pasted, s.vaultOpen, wire);
    case _ =>
  }

  lemma {:induction false} SubmittingShowsNothingSealed(d: Device, pasted: Wire, vaultOpen: bool, wire: Wire)
    requires d.side.Holder? && wire.Sealed? && wire in Texts(Submitted(d, pasted, vaultOpen).device)
    ensures wire in Texts(d)
  {
    if d.phase.Awaiting? {
      match d.phase.leg
      case CodeLeg =>
        if pasted.Code? {
          SteppingShowsNothingSealed(Scanned(d, pasted.key), CodeLeg, wire);
        }
      case First => HearingShowsNothingSealed(d, pasted, First, wire);
      case Second => HearingShowsNothingSealed(d, pasted, Second, wire);
      case Third => HearingShowsNothingSealed(d, pasted, Third, wire);
      case _ =>
    }
  }

  lemma SteppingShowsNothingSealed(d: Device, leg: Leg, wire: Wire)
    requires wire.Sealed?
    ensures StepAfter(d, leg, None).waits == d.waits && wire !in Handed(StepAfter(d, leg, None)) - Handed(d)
  {}

  lemma HearingShowsNothingSealed(d: Device, pasted: Wire, leg: Leg, wire: Wire)
    requires wire.Sealed? && d.phase.Awaiting?
    ensures var after := ReceivedOrFailed(d, pasted, leg); after.waits == d.waits && wire !in Handed(after)
  {
    if Received(d, pasted).Some? {
      SteppingShowsNothingSealed(Received(d, pasted).value, leg, wire);
    }
  }

  lemma {:induction false} SealsUnderItsOwn(d: Device, id: nat, wire: Wire)
    requires d.side.Holder? && wire.Sealed? && CanSeal(d, id) && wire in Texts(SealedFor(d, id))
    ensures wire in Texts(d) || (VaultsAnswer(d, id).1 == Some(wire) && AttemptOf(wire) == d.waits[id].attempt)
  {
    AnsweringKeepsTheRest(d, id);
  }

  lemma {:induction false} ResumingShowsWhatWasSealed(d: Device, id: nat, wire: Wire)
    requires d.side.Holder? && wire.Sealed? && CanResume(d, id) && wire in Texts(Resumed(d, id))
    ensures wire in Texts(d)
  {}

  // ---- What a stopped device shows ----

  /** Nothing is done at the side but what was begun there before goes on. */
  predicate LeftAlone(steps: seq<Step>, side: Side) {
    forall s | s in steps && s.side == side :: s.action.VaultAnswers? || s.action.CallResumes?
  }

  /** The last suspended call to go on at the side, if any has. */
  function LastResumed(steps: seq<Step>, side: Side): Option<nat>
    decreases |steps|
  {
    if steps == [] then None
    else
      var later := LastResumed(steps[1..], side);
      if later.Some? then later
      else if steps[0].side == side && steps[0].action.CallResumes? then Some(steps[0].action.id) else None
  }

  /** The device once the vault has answered what it answers in these steps. */
  function Answers(d: Device, steps: seq<Step>, side: Side): Device
    decreases |steps|
  {
    if steps == [] then d
    else
      var s := steps[0];
      var next := if s.side == side && s.action.VaultAnswers? && CanSeal(d, s.action.id) then SealedFor(d, s.action.id) else d;
      Answers(next, steps[1..], side)
  }

  /** What a call shows when it goes on at a device whose session is gone. */
  function PhaseOf(side: Side, wait: Wait): Phase {
    if wait.work.Adopt? then Done
    else if wait.answer.None? || wait.answer.value.None? then Failed
    else if wait.work.SealOffer? then HandOff(OfferLeg, wait.answer.value.value)
    else if side.Holder? then HandOff(GrantLeg, wait.answer.value.value) else Awaiting(GrantLeg)
  }

  /** The device has what `e` has, less the calls that have gone on. */
  predicate GoneOnFrom(d: Device, e: Device) {
    && d.side == e.side && d.attempt == e.attempt && d.session.None? && e.session.None? && d.past == e.past
    && forall id | id in d.waits :: id in e.waits && d.waits[id] == e.waits[id]
  }

  lemma {:induction false} AnsweringBoth(d: Device, e: Device, id: nat)
    requires GoneOnFrom(d, e) && CanSeal(d, id)
    ensures CanSeal(e, id) && GoneOnFrom(SealedFor(d, id), SealedFor(e, id))
    ensures SealedFor(d, id).phase == d.phase
  {}

  lemma {:induction false} AnswersStay(e: Device, steps: seq<Step>, side: Side, id: nat)
    requires id in e.waits && (e.waits[id].answer.Some? || e.waits[id].work.Adopt?)
    ensures id in Answers(e, steps, side).waits && Answers(e, steps, side).waits[id] == e.waits[id]
    decreases |steps|
  {
    if steps != [] {
      var s := steps[0];
      if s.side == side && s.action.VaultAnswers? && CanSeal(e, s.action.id) {
        AnsweringKeepsTheRest(e, s.action.id);
        AnswersStay(SealedFor(e, s.action.id), steps[1..], side, id);
      } else {
        AnswersStay(e, steps[1..], side, id);
      }
    }
  }

  lemma {:induction false} GoingOn(d: Device, e: Device, id: nat)
    requires GoneOnFrom(d, e) && CanResume(d, id)
    ensures GoneOnFrom(Resumed(d, id), e) && Resumed(d, id).phase == PhaseOf(d.side, e.waits[id])
  {}

  /** A call suspended before goes on without looking at the attempt. So a stopped
      device, left alone, has no session, and shows what it stopped with exactly until
      one does; then what that one shows: the text the vault has answered it with,
      before the stop or since, an error if it has refused, or, for a root on its way
      to the session, that the pairing is done. */
  lemma {:induction false} AStoppedDeviceShows(w: World, steps: seq<Step>, side: Side)
    requires w.added.side.New? && w.holder.side.Holder? && CanRun(w, steps) && LeftAlone(steps, side)
    requires At(w, side).session.None?
    ensures var d, after, last := At(w, side), At(Run(w, steps), side), LastResumed(steps, side);
            && after.session.None? && after.attempt == d.attempt
            && (last.None? ==> after.phase == d.phase)
            && (last.Some? ==> last.value in Answers(d, steps, side).waits
                               && after.phase == PhaseOf(side, Answers(d, steps, side).waits[last.value]))
  {
    ShowsFrom(w, steps, side, At(w, side));
  }

  lemma {:induction false} ShowsFrom(w: World, steps: seq<Step>, side: Side, e: Device)
    requires w.added.side.New? && w.holder.side.Holder? && CanRun(w, steps) && LeftAlone(steps, side)
    requires GoneOnFrom(At(w, side), e)
    ensures var d, after, last := At(w, side), At(Run(w, steps), side), LastResumed(steps, side);
            && after.session.None? && after.attempt == d.attempt
            && (last.None? ==> after.phase == d.phase)
            && (last.Some? ==> last.value in Answers(e, steps, side).waits
                               && after.phase == PhaseOf(side, Answers(e, steps, side).waits[last.value]))
    decreases |steps|
  {
    if steps != [] {
      assert steps[0] in steps;
      var d, s := At(w, side), steps[0];
      KeepsItsSide(At(w, s.side), s);
      var next := e;
      if s.side == side && s.action.VaultAnswers? {
        AnsweringBoth(d, e, s.action.id);
        next := SealedFor(e, s.action.id);
      } else if s.side == side {
        GoingOn(d, e, s.action.id);
        AnswersStay(e, steps[1..], side, s.action.id);
      }
      ShowsFrom(Next(w, s), steps[1..], side, next);
    }
  }

  lemma KeepsItsSide(d: Device, s: Step)
    ensures React(d, s).device.side == d.side
  {}

  /** So of a device that was cancelled: left alone it hands a text over exactly if
      the last suspended call to go on has been answered with one, before the cancel
      or after it. */
  lemma {:induction false} ACancelledDeviceHandsOverIff(w: World, side: Side, vaultOpen: bool, steps: seq<Step>)
    requires Sound(w)
    requires var v := Next(w, Step(side, Cancel, vaultOpen)); CanRun(v, steps) && LeftAlone(steps, side)
    ensures var v := Next(w, Step(side, Cancel, vaultOpen));
            var after, last, e := At(Run(v, steps), side), LastResumed(steps, side), Answers(At(v, side), steps, side);
            && after.session.None?
            && (after.phase == AtRest(side) <==> last.None?)
            && (last.Some? ==> last.value in e.waits)
            && (after.phase.HandOff? <==> last.Some? && e.waits[last.value].answer.Some? && e.waits[last.value].answer.value.Some?)
  {
    var s := Step(side, Cancel, vaultOpen);
    var v := Next(w, s);
    NextIsSound(w, s);
    AStoppedDeviceShows(v, steps, side);
    AnsweringFits(v.agreedAtAdded, v.agreedAtHolder, At(v, side), steps, side);
    var last, e := LastResumed(steps, side), Answers(At(v, side), steps, side);
    if last.Some? {
      assert WaitFits(v.agreedAtAdded, v.agreedAtHolder, side, e.waits[last.value]);
    }
  }

  lemma {:induction false} AnsweringFits(a: set<Transcript>, h: set<Transcript>, d: Device, steps: seq<Step>, side: Side)
    requires Fits(a, h, d)
    ensures Fits(a, h, Answers(d, steps, side)) && Answers(d, steps, side).side == d.side
    decreases |steps|
  {
    if steps != [] {
      var s := steps[0];
      if s.side == side && s.action.VaultAnswers? && CanSeal(d, s.action.id) {
        SealedForFits(a, h, d, s.action.id);
        AnsweringFits(a, h, SealedFor(d, s.action.id), steps[1..], side);
      } else {
        AnsweringFits(a, h, d, steps[1..], side);
      }
    }
  }

  /** With its session gone and no code to be pasted, nothing short of starting over
      or a suspended call moves a device from where it said the digits differ. */
  predicate Stopped(d: Device) {
    d.session.None? && d.phase != Awaiting(CodeLeg)
  }

  lemma {:induction false} StoppedStaysStopped(d: Device, s: Step)
    requires Stopped(d) && !s.action.Begin? && !s.action.Cancel?
    ensures var after := React(d, s).device;
            && Stopped(after)
            && (d.phase.Mismatch? && !s.action.CallResumes? ==> after.phase.Mismatch?)
            && (s.action.CallResumes? && CanResume(d, s.action.id) ==> !after.phase.Mismatch?)
            && (!d.phase.Mismatch? ==> !after.phase.Mismatch?)
  {}

  /** Over every run without a cancel or a new start at it, whatever is pasted or
      pressed there: a device whose digits differed says so exactly until a call
      that was suspended goes on, and never again after that. */
  lemma {:induction false} AMismatchStandsIff(w: World, steps: seq<Step>, side: Side)
    requires CanRun(w, steps) && Stopped(At(w, side))
    requires forall s | s in steps && s.side == side :: !s.action.Begin? && !s.action.Cancel?
    ensures Stopped(At(Run(w, steps), side))
    ensures At(Run(w, steps), side).phase.Mismatch?
        <==> At(w, side).phase.Mismatch? && forall s | s in steps && s.side == side :: !s.action.CallResumes?
    decreases |steps|
  {
    if steps != [] {
      var s := steps[0];
      assert s in steps;
      if s.side == side {
        StoppedStaysStopped(At(w, side), s);
      }
      AMismatchStandsIff(Next(w, s), steps[1..], side);
      assert forall t :: t in steps <==> t == s || t in steps[1..];
    }
  }
}
