/** One pairing that ends well and one that ends badly, leg by leg
    (apps/apple/Sunrise/Pairing/PairingModel.swift). */
module PairingStories {
  import opened Wrappers
  import opened Pairing
  import opened PairingRuns
  import opened PairingSafety

  // ---- Two truthful users and a courier that delivers ----

  const E_N: Key := Own(New, 1, false)
  const S_N: Key := Own(New, 1, true)
  const E_H: Key := Own(Holder, 1, false)
  const S_H: Key := Own(Holder, 1, true)

  const Ours: Transcript := Transcript(E_N, E_H, S_N, S_H)

  const TheReply: Wire := Reply(E_N, E_H, S_H)
  const TheFinal: Wire := Final(E_N, E_H, S_H, S_N)
  const TheOffer: Wire := Sealed(Ours, false, 0, Offer(Account))
  const TheRequest: Wire := Sealed(Ours, true, 0, Request(Minted(1), Account))
  const TheGrant: Wire := Sealed(Ours, false, 1, Grant(Account, Minted(1), Vault))

  function Script(k: nat): Step {
    match k
    case 0 => Step(New, Begin(true), true)
    case 1 => Step(Holder, Submit(Code(S_N)), true)
    case 2 => Step(New, Advance, true)
    case 3 => Step(Holder, Submit(Hello(E_N)), true)
    case 4 => Step(New, Advance, true)
    case 5 => Step(New, Submit(TheReply), true)
    case 6 => Step(Holder, Advance, true)
    case 7 => Step(Holder, Submit(TheFinal), true)
    case 8 => Step(New, Advance, true)
    case 9 => Step(New, Answer(true), true)
    case 10 => Step(Holder, Answer(true), true)
    case 11 => Step(Holder, VaultAnswers(0), true)
    case 12 => Step(Holder, CallResumes(0), true)
    case 13 => Step(New, Submit(TheOffer), true)
    case 14 => Step(Holder, Advance, true)
    case 15 => Step(Holder, Submit(TheRequest), true)
    case 16 => Step(Holder, VaultAnswers(1), true)
    case 17 => Step(Holder, CallResumes(1), true)
    case 18 => Step(New, Advance, true)
    case 19 => Step(New, Submit(TheGrant), true)
    case _ => Step(New, CallResumes(0), true)
  }

  const Heard: Session := Opening.(peerE := Some(E_H), peerS := Some(S_H))
  const Asked: Session := Heard.(confirmed := true, sent := 1, received := 1, joiner := Some(Joiner(Account, Minted(1))))
  const Given: Session := Asked.(received := 2)

  /** The device being added on its first attempt, with no call suspended. */
  function Adding(phase: Phase, session: Session): Device {
    Device(New, 1, phase, Some(session), map[], map[], 0)
  }

  /** The device being added before step `k`. */
  function AddedAt(k: nat): Device {
    if k == 0 then Fresh(New)
    else if k <= 2 then Adding(HandOff(CodeLeg, Code(S_N)), Opening)
    else if k <= 4 then Adding(HandOff(First, Hello(E_N)), Opening)
    else if k == 5 then Adding(Awaiting(Second), Opening)
    else if k <= 8 then Adding(HandOff(Third, TheFinal), Heard)
    else if k == 9 then Adding(Comparing, Heard)
    else if k <= 13 then Adding(Awaiting(OfferLeg), Heard.(confirmed := true))
    else if k <= 18 then Adding(HandOff(RequestLeg, TheRequest), Asked)
    else if k == 19 then Adding(Awaiting(GrantLeg), Asked)
    else if k == 20 then Device(New, 1, Working, Some(Given), map[], map[0 := Wait(1, Adopt, None)], 1)
    else Device(New, 1, Done, None, map[1 := Given], map[], 1)
  }

  const Called: Session := Opening.(expected := Some(S_N))
  const Greeted: Session := Called.(peerE := Some(E_N))
  const Met: Session := Greeted.(peerS := Some(S_N))
  const Agreed: Session := Met.(confirmed := true)

  function Holding(phase: Phase, session: Session, waits: map<nat, Wait>, next: nat): Device {
    Device(Holder, 1, phase, Some(session), map[], waits, next)
  }

  /** The holder before step `k`. */
  function HolderAt(k: nat): Device {
    var granting := SealGrant(TheRequest);
    if k <= 1 then Fresh(Holder)
    else if k <= 3 then Holding(Awaiting(First), Called, map[], 0)
    else if k <= 6 then Holding(HandOff(Second, TheReply), Greeted, map[], 0)
    else if k == 7 then Holding(Awaiting(Third), Greeted, map[], 0)
    else if k <= 10 then Holding(Comparing, Met, map[], 0)
    else if k == 11 then Holding(Working, Agreed, map[0 := Wait(1, SealOffer, None)], 1)
    else if k == 12 then Holding(Working, Agreed.(sent := 1), map[0 := Wait(1, SealOffer, Some(Some(TheOffer)))], 1)
    else if k <= 14 then Holding(HandOff(OfferLeg, TheOffer), Agreed.(sent := 1), map[], 1)
    else if k == 15 then Holding(Awaiting(RequestLeg), Agreed.(sent := 1), map[], 1)
    else if k == 16 then Holding(Working, Agreed.(sent := 1), map[1 := Wait(1, granting, None)], 2)
    else if k == 17 then Holding(Working, Agreed.(sent := 2, received := 1), map[1 := Wait(1, granting, Some(Some(TheGrant)))], 2)
    else Holding(HandOff(GrantLeg, TheGrant), Agreed.(sent := 2, received := 1), map[], 2)
  }

  predicate Stage(w: World, k: nat) {
    && w.added == AddedAt(k) && w.holder == HolderAt(k)
    && Handed(w.added) <= w.net && Handed(w.holder) <= w.net
    && (k > 7 ==> Ours in w.shownByHolder) && (k > 8 ==> Ours in w.shownByAdded)
    && w.adopted == (if k < 20 then {} else {Adoption(Ours, Minted(1), Vault)})
  }

  predicate GoesOn(w: World, k: nat) {
    var s := Script(k);
    Enabled(w, s) && Truthful(w, s, New) && Truthful(w, s, Holder) && Stage(Next(w, s), k + 1)
  }

  lemma TheCodeCrosses(w: World, k: nat)
    requires Stage(w, k) && k < 4
    ensures GoesOn(w, k)
  {}

  lemma TheHandshakeCrosses(w: World, k: nat)
    requires Stage(w, k) && 4 <= k < 9
    ensures GoesOn(w, k)
  {}

  lemma TheDigitsMatch(w: World, k: nat)
    requires Stage(w, k) && 9 <= k < 11
    ensures GoesOn(w, k)
  {}

  lemma TheOfferIsSealed(w: World, k: nat)
    requires Stage(w, k) && 11 <= k < 13
    ensures GoesOn(w, k)
  {}

  lemma TheOfferIsAnswered(w: World, k: nat)
    requires Stage(w, k) && 13 <= k < 16
    ensures GoesOn(w, k)
  {}

  lemma TheRequestIsGranted(w: World, k: nat)
    requires Stage(w, k) && 16 <= k < 18
    ensures GoesOn(w, k)
  {}

  lemma TheGrantIsAccepted(w: World, k: nat)
    requires Stage(w, k) && 18 <= k < 21
    ensures GoesOn(w, k)
  {}

  lemma {:induction false} EveryLegGoesOn(w: World, k: nat)
    requires Stage(w, k) && k < 21
    ensures GoesOn(w, k)
  {
    if k < 4 {
      TheCodeCrosses(w, k);
    } else if k < 9 {
      TheHandshakeCrosses(w, k);
    } else if k < 11 {
      TheDigitsMatch(w, k);
    } else if k < 13 {
      TheOfferIsSealed(w, k);
    } else if k < 16 {
      TheOfferIsAnswered(w, k);
    } else if k < 18 {
      TheRequestIsGranted(w, k);
    } else {
      TheGrantIsAccepted(w, k);
    }
  }

  lemma {:induction false} TheStoryUpTo(w: World, k: nat, end: nat) returns (steps: seq<Step>)
    requires Stage(w, k) && k <= end <= 21
    ensures CanRun(w, steps) && TruthfulRun(w, steps, New) && TruthfulRun(w, steps, Holder) && Stage(Run(w, steps), end)
    decreases end - k
  {
    steps := [];
    if k < end {
      EveryLegGoesOn(w, k);
      var rest := TheStoryUpTo(Next(w, Script(k)), k + 1, end);
      steps := [Script(k)] + rest;
      assert steps[1..] == rest;
    }
  }

  /** Two truthful users and a courier that delivers: the account crosses, once,
      and the device that was added is left with no session. */
  lemma {:induction false} TheAccountCrosses() returns (steps: seq<Step>)
    ensures CanRun(Start, steps) && TruthfulRun(Start, steps, New) && TruthfulRun(Start, steps, Holder)
    ensures var w := Run(Start, steps);
            w.adopted == {Adoption(Ours, Minted(1), Vault)} && w.added.phase == Done && w.added.session.None?
  {
    steps := TheStoryUpTo(Start, 0, 21);
  }

  // ---- A holder who cancels too late ----

  /** What is done after the request has been pasted: a cancel at the holder, and the rest all the same. */
  function Afterwards(k: nat): Step {
    match k
    case 0 => Step(Holder, Cancel, true)
    case 1 => Step(Holder, VaultAnswers(1), true)
    case 2 => Step(Holder, CallResumes(1), true)
    case 3 => Step(New, Advance, true)
    case _ => Step(New, Submit(TheGrant), true)
  }

  function CancelledAt(k: nat): Device {
    var asked, given := Agreed.(sent := 1), Agreed.(sent := 2, received := 1);
    if k == 0 then HolderAt(16)
    else if k == 1 then Device(Holder, 1, Awaiting(CodeLeg), None, map[1 := asked], map[1 := Wait(1, SealGrant(TheRequest), None)], 2)
    else if k == 2 then
      Device(Holder, 1, Awaiting(CodeLeg), None, map[1 := given], map[1 := Wait(1, SealGrant(TheRequest), Some(Some(TheGrant)))], 2)
    else Device(Holder, 1, HandOff(GrantLeg, TheGrant), None, map[1 := given], map[], 2)
  }

  predicate Late(w: World, k: nat) {
    && w.holder == CancelledAt(k)
    && w.added == (if k <= 3 then AddedAt(16) else if k == 4 then AddedAt(19) else AddedAt(20))
    && (k >= 3 ==> TheGrant in w.net)
    && w.adopted == (if k < 5 then {} else {Adoption(Ours, Minted(1), Vault)})
  }

  lemma TheCancelIsTooLate(w: World, k: nat)
    requires Late(w, k) && k < 5
    ensures Enabled(w, Afterwards(k)) && Late(Next(w, Afterwards(k)), k + 1)
  {
    if k < 3 {
      TheHolderGoesOn(w, k);
    } else {
      TheGrantIsTaken(w, k);
    }
  }

  lemma TheHolderGoesOn(w: World, k: nat)
    requires Late(w, k) && k < 3
    ensures Enabled(w, Afterwards(k)) && Late(Next(w, Afterwards(k)), k + 1)
  {}

  lemma TheGrantIsTaken(w: World, k: nat)
    requires Late(w, k) && 3 <= k < 5
    ensures Enabled(w, Afterwards(k)) && Late(Next(w, Afterwards(k)), k + 1)
  {}

  lemma {:induction false} TheRestAllTheSame(w: World, k: nat) returns (steps: seq<Step>)
    requires Late(w, k) && k <= 5
    ensures CanRun(w, steps) && Late(Run(w, steps), 5) && (k == 0 ==> steps != [] && steps[0] == Step(Holder, Cancel, true))
    decreases 5 - k
  {
    steps := [];
    if k < 5 {
      TheCancelIsTooLate(w, k);
      var rest := TheRestAllTheSame(Next(w, Afterwards(k)), k + 1);
      steps := [Afterwards(k)] + rest;
      assert steps[1..] == rest;
    }
  }

  /** The holder's user cancels while the vault has a request to answer: it is
      answered all the same, the cancelled screen shows the grant, and the account crosses. */
  lemma {:induction false} TheAccountCrossesAfterACancel() returns (before: seq<Step>, after: seq<Step>)
    ensures CanRun(Start, before) && TruthfulRun(Start, before, New) && TruthfulRun(Start, before, Holder)
    ensures var w := Run(Start, before);
            && w.adopted == {} && TheGrant !in Texts(w.holder) && CanRun(w, after) && after != [] && after[0] == Step(Holder, Cancel, true)
            && Run(w, after).holder.session.None? && Run(w, after).holder.phase == HandOff(GrantLeg, TheGrant)
            && Run(w, after).adopted == {Adoption(Ours, Minted(1), Vault)}
  {
    before := TheStoryUpTo(Start, 0, 16);
    after := TheRestAllTheSame(Run(Start, before), 0);
  }

  // ---- A user who does not compare ----

  function Theirs(): Transcript {
    Transcript(E_N, Foreign(0), S_N, Foreign(1))
  }

  function Trick(k: nat, n: nat): Action {
    match k
    case 0 => Begin(true)
    case 3 => Submit(Reply(E_N, Foreign(0), Foreign(1)))
    case 5 => Answer(true)
    case 6 => Submit(Sealed(Theirs(), false, 0, Offer(Stranger(n))))
    case 8 => Submit(Sealed(Theirs(), false, 1, Grant(Stranger(n), Minted(1), OtherRoot(n))))
    case _ => Advance
  }

  const Fooled: Session := Opening.(peerE := Some(Foreign(0)), peerS := Some(Foreign(1)))

  function TrickedAt(k: nat, n: nat): Device {
    var asked := Fooled.(confirmed := true, sent := 1, received := 1, joiner := Some(Joiner(Stranger(n), Minted(1))));
    if k == 0 then Fresh(New)
    else if k == 1 then Adding(HandOff(CodeLeg, Code(S_N)), Opening)
    else if k == 2 then Adding(HandOff(First, Hello(E_N)), Opening)
    else if k == 3 then Adding(Awaiting(Second), Opening)
    else if k == 4 then Adding(HandOff(Third, Final(E_N, Foreign(0), Foreign(1), S_N)), Fooled)
    else if k == 5 then Adding(Comparing, Fooled)
    else if k == 6 then Adding(Awaiting(OfferLeg), Fooled.(confirmed := true))
    else if k == 7 then Adding(HandOff(RequestLeg, Sealed(Theirs(), true, 0, Request(Minted(1), Stranger(n)))), asked)
    else if k == 8 then Adding(Awaiting(GrantLeg), asked)
    else Device(New, 1, Working, Some(asked.(received := 2)), map[], map[0 := Wait(1, Adopt, None)], 1)
  }

  predicate Tricked(w: World, k: nat, n: nat) {
    w.added == TrickedAt(k, n) && (k == 9 ==> Adoption(Theirs(), Minted(1), OtherRoot(n)) in w.adopted)
  }

  lemma TheTrickGoesOn(w: World, k: nat, n: nat)
    requires Tricked(w, k, n) && k < 9
    ensures var s := Step(New, Trick(k, n), true); Enabled(w, s) && Tricked(Next(w, s), k + 1, n)
  {}

  lemma {:induction false} TheRestOfTheTrick(w: World, k: nat, n: nat) returns (steps: seq<Step>)
    requires Tricked(w, k, n) && k <= 9
    ensures CanRun(w, steps) && TruthfulRun(w, steps, Holder) && Tricked(Run(w, steps), 9, n)
    decreases 9 - k
  {
    steps := [];
    if k < 9 {
      TheTrickGoesOn(w, k, n);
      var s := Step(New, Trick(k, n), true);
      var rest := TheRestOfTheTrick(Next(w, s), k + 1, n);
      steps := [s] + rest;
      assert steps[1..] == rest;
    }
  }

  /** Without the comparison nothing protects it: a user who says "matched" of
      digits the holder never showed can adopt a stranger's root. */
  lemma {:induction false} WithoutComparingAStrangerIsAdopted(n: nat) returns (steps: seq<Step>)
    ensures CanRun(Start, steps) && TruthfulRun(Start, steps, Holder)
    ensures Adoption(Theirs(), Minted(1), OtherRoot(n)) in Run(Start, steps).adopted
  {
    steps := TheRestOfTheTrick(Start, 0, n);
  }
}
