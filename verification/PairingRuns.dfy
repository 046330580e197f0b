/** Both devices, their two users and the courier between them, in any
    interleaving and over any number of attempts
    (apps/apple/Sunrise/Pairing/PairingModel.swift, crates/sunrise-client-core/src/pairing/device.rs). */
module PairingRuns {
  import opened Wrappers
  import opened Pairing

  /** `net`: what the devices have handed the courier. `shown` and `agreed`: the
      transcripts whose digits each device has displayed, and whose digits its
      user has said match. */
  datatype World = World(
    added: Device,
    holder: Device,
    net: set<Wire>,
    shownByAdded: set<Transcript>,
    shownByHolder: set<Transcript>,
    agreedAtAdded: set<Transcript>,
    agreedAtHolder: set<Transcript>,
    adopted: set<Adoption>)

  function Fresh(side: Side): Device {
    Device(side, 0, AtRest(side), None, map[], map[], 0)
  }

  const Start: World := World(Fresh(New), Fresh(Holder), {}, {}, {}, {}, {}, {})

  /** What a user does at a device, and the two halves of a suspended call. */
  datatype Action =
    | Begin(offers: bool)
    | Advance
    | Submit(wire: Wire)
    | Answer(matched: bool)
    | Cancel
    | VaultAnswers(id: nat)
    | CallResumes(id: nat)

  datatype Step = Step(side: Side, action: Action, vaultOpen: bool)

  /** What a courier can make without a device's private keys. */
  predicate Forgeable(wire: Wire) {
    match wire
    case Code(_) => true
    case Hello(_) => true
    case Reply(_, eR, sR) => eR.Foreign? && sR.Foreign?
    case Final(eI, _, _, sI) => eI.Foreign? && sI.Foreign?
    case Sealed(t, _, _, _) => Party(t)
    case Garbage => true
  }

  /** The courier is one of the two parties of the transcript. */
  predicate Party(t: Transcript) {
    (t.eI.Foreign? && t.sI.Foreign?) || (t.eR.Foreign? && t.sR.Foreign?)
  }

  predicate Enabled(w: World, s: Step) {
    match s.action
    case Submit(wire) => wire in w.net || Forgeable(wire)
    case VaultAnswers(id) => CanSeal(At(w, s.side), id)
    case CallResumes(id) => CanResume(At(w, s.side), id)
    case _ => true
  }

  function At(w: World, side: Side): Device {
    if side.New? then w.added else w.holder
  }

  function React(d: Device, s: Step): Reaction {
    match s.action
    case Begin(offers) => Reaction(Begun(d, offers), None)
    case Advance => Reaction(Advanced(d), None)
    case Submit(wire) => Submitted(d, wire, s.vaultOpen)
    case Answer(matched) => Reaction(Answered(d, matched, s.vaultOpen), None)
    case Cancel => Reaction(Cancelled(d), None)
    case VaultAnswers(id) => Reaction(if CanSeal(d, id) then SealedFor(d, id) else d, None)
    case CallResumes(id) => Reaction(if CanResume(d, id) then Resumed(d, id) else d, None)
  }

  function Handed(d: Device): set<Wire> {
    if d.phase.HandOff? then {d.phase.wire} else {}
  }

  function Digits(d: Device): set<Transcript> {
    if d.phase.Comparing? && d.Handshake().Some? then {d.Handshake().value} else {}
  }

  function Next(w: World, s: Step): World {
    var before, r := At(w, s.side), React(At(w, s.side), s);
    var agreed := if s.action == Answer(true) then Digits(before) else {};
    var adopted := if r.adopted.Some? then {r.adopted.value} else {};
    if s.side.New? then
      w.(added := r.device, net := w.net + Handed(r.device), shownByAdded := w.shownByAdded + Digits(r.device),
         agreedAtAdded := w.agreedAtAdded + agreed, adopted := w.adopted + adopted)
    else
      w.(holder := r.device, net := w.net + Handed(r.device), shownByHolder := w.shownByHolder + Digits(r.device),
         agreedAtHolder := w.agreedAtHolder + agreed, adopted := w.adopted + adopted)
  }

  predicate CanRun(w: World, steps: seq<Step>)
    decreases |steps|
  {
    steps == [] || (Enabled(w, steps[0]) && CanRun(Next(w, steps[0]), steps[1..]))
  }

  function Run(w: World, steps: seq<Step>): World
    decreases |steps|
  {
    if steps == [] then w else Run(Next(w, steps[0]), steps[1..])
  }

  // ---- What every run keeps ----

  predicate AddedsKeys(e: Key, s: Key) {
    e.Own? && e.side.New? && s == Own(New, e.attempt, true)
  }

  predicate HoldersKeys(e: Key, s: Key) {
    e.Own? && e.side.Holder? && s == Own(Holder, e.attempt, true)
  }

  predicate Strangers(e: Key, s: Key) {
    e.Foreign? && s.Foreign?
  }

  /** A message on the net says only what its maker could have said; `a` and `h`
      are the transcripts agreed to at the added device and at the holder. */
  predicate Genuine(a: set<Transcript>, h: set<Transcript>, wire: Wire) {
    match wire
    case Reply(_, eR, sR) => HoldersKeys(eR, sR)
    case Final(eI, _, _, sI) => AddedsKeys(eI, sI)
    case Sealed(t, true, _, plain) =>
      AddedsKeys(t.eI, t.sI) && t in a && plain.Request? && plain.keys == Minted(t.eI.attempt)
    case Sealed(t, false, _, plain) => HoldersKeys(t.eR, t.sR) && t in h && GrantedTo(t, plain)
    case _ => true
  }

  /** The holder offers its account, and certifies for it the keys the joiner
      minted in the very attempt the transcript belongs to. */
  predicate GrantedTo(t: Transcript, plain: Plain) {
    match plain
    case Offer(identity) => identity == Account
    case Request(_, _) => false
    case Grant(signer, keys, root) =>
      signer == Account && root == Vault && (AddedsKeys(t.eI, t.sI) ==> keys == Minted(t.eI.attempt))
  }

  /** What a device has, or may yet be, showing. */
  predicate Shown(a: set<Transcript>, h: set<Transcript>, side: Side, wire: Wire) {
    Genuine(a, h, wire) && (wire.Sealed? ==> wire.byInitiator == side.New?)
  }

  /** What may be pasted: something genuine, or something a stranger can make. */
  predicate Plausible(a: set<Transcript>, h: set<Transcript>, wire: Wire) {
    Genuine(a, h, wire) || Forgeable(wire)
  }

  ghost predicate WaitFits(a: set<Transcript>, h: set<Transcript>, side: Side, wait: Wait) {
    && (side.New? ==> wait.work.Adopt?) && (wait.work.Adopt? ==> wait.answer.None?)
    && (wait.work.SealGrant? ==> Plausible(a, h, wait.work.request))
    && (wait.answer.Some? && wait.answer.value.Some? ==> Shown(a, h, side, wait.answer.value.value))
  }

  /** A session knows only its peer's own keys or a stranger's, and its channel is
      open only on digits agreed to. */
  ghost predicate SessionFits(a: set<Transcript>, h: set<Transcript>, side: Side, n: nat, s: Session) {
    && (s.confirmed ==>
          var t := AsIn(side, n, Some(s)).Handshake();
          t.Some? && t.value in if side.New? then a else h)
    && (if side.New? then
          && (s.peerE.Some? <==> s.peerS.Some?)
          && (s.peerE.Some? ==> Strangers(s.peerE.value, s.peerS.value) || HoldersKeys(s.peerE.value, s.peerS.value))
          && (s.joiner.Some? ==> s.joiner.value.keys == Minted(n))
        else
          s.peerS.Some? ==> s.peerE.Some? && (Strangers(s.peerE.value, s.peerS.value) || AddedsKeys(s.peerE.value, s.peerS.value)))
  }

  ghost predicate Fits(a: set<Transcript>, h: set<Transcript>, d: Device) {
    && (d.phase.HandOff? ==> Shown(a, h, d.side, d.phase.wire))
    && (d.phase.Comparing? ==> d.Handshake().Some?)
    && (forall id | id in d.waits :: id < d.next && WaitFits(a, h, d.side, d.waits[id]))
    && (d.session.Some? ==> SessionFits(a, h, d.side, d.attempt, d.session.value))
    && (forall n | n in d.past :: n <= d.attempt && d.past[n].confirmed && SessionFits(a, h, d.side, n, d.past[n]))
  }

  /** A root adopted was agreed to, for keys of that attempt; and if the holder
      is the other party, its user agreed too and the root is the account's. */
  predicate AdoptedWell(a: set<Transcript>, h: set<Transcript>, x: Adoption) {
    && x.t in a && AddedsKeys(x.t.eI, x.t.sI) && x.keys == Minted(x.t.eI.attempt)
    && (HoldersKeys(x.t.eR, x.t.sR) || Strangers(x.t.eR, x.t.sR))
    && (HoldersKeys(x.t.eR, x.t.sR) ==> x.t in h && x.root == Vault)
  }

  ghost predicate Sound(w: World) {
    && w.added.side.New? && w.holder.side.Holder?
    && Fits(w.agreedAtAdded, w.agreedAtHolder, w.added) && Fits(w.agreedAtAdded, w.agreedAtHolder, w.holder)
    && (forall wire | wire in w.net :: Genuine(w.agreedAtAdded, w.agreedAtHolder, wire))
    && (forall t | t in w.shownByAdded :: AddedsKeys(t.eI, t.sI))
    && (forall t | t in w.shownByHolder :: HoldersKeys(t.eR, t.sR))
    && (forall x | x in w.adopted :: AdoptedWell(w.agreedAtAdded, w.agreedAtHolder, x))
  }

  // ---- One device, one action ----

  lemma SteppingKeepsTheRest(d: Device, leg: Leg, text: Option<Wire>)
    ensures StepAfter(d, leg, text) == d.(phase := StepAfter(d, leg, text).phase)
  {}

  lemma SteppingShows(a: set<Transcript>, h: set<Transcript>, d: Device, leg: Leg, text: Option<Wire>)
    requires Fits(a, h, d) && (text.Some? ==> Shown(a, h, d.side, text.value))
    ensures var phase := StepAfter(d, leg, text).phase;
            && (phase.HandOff? ==> Shown(a, h, d.side, phase.wire))
            && (phase.Comparing? ==> d.Handshake().Some?)
  {}

  lemma SteppingFits(a: set<Transcript>, h: set<Transcript>, d: Device, leg: Leg, text: Option<Wire>)
    requires Fits(a, h, d) && (text.Some? ==> Shown(a, h, d.side, text.value))
    ensures Fits(a, h, StepAfter(d, leg, text)) && StepAfter(d, leg, text).side == d.side
  {
    SteppingKeepsTheRest(d, leg, text);
    SteppingShows(a, h, d, leg, text);
  }

  lemma SuspendingFits(a: set<Transcript>, h: set<Transcript>, d: Device, work: Work)
    requires Fits(a, h, d) && (d.side.New? ==> work.Adopt?) && (work.SealGrant? ==> Plausible(a, h, work.request))
    ensures Fits(a, h, Suspended(d, work)) && Suspended(d, work).side == d.side
  {}

  lemma ReceivingFits(a: set<Transcript>, h: set<Transcript>, d: Device, wire: Wire)
    requires Fits(a, h, d) && Plausible(a, h, wire) && Received(d, wire).Some? && !d.phase.HandOff? && !d.phase.Comparing?
    ensures Fits(a, h, Received(d, wire).value) && Received(d, wire).value.side == d.side
  {}

  /** Opening gives what the peer said, or what a stranger who is the peer made up. */
  lemma OpeningFits(a: set<Transcript>, h: set<Transcript>, d: Device, wire: Wire)
    requires Fits(a, h, d) && Plausible(a, h, wire) && Open(d, wire).Some?
    ensures var (after, plain) := Open(d, wire).value;
            && Fits(a, h, after) && after.side == d.side && after == d.(session := after.session)
            && after.Handshake() == d.Handshake() && d.Handshake().Some?
            && after.session == Some(d.session.value.(received := d.session.value.received + 1))
            && (Party(d.Handshake().value) || Genuine(a, h, Sealed(d.Handshake().value, d.side.Holder?, wire.n, plain)))
  {}

  lemma SealingFits(a: set<Transcript>, h: set<Transcript>, d: Device, plain: Plain)
    requires Fits(a, h, d) && Seal(d, plain).Some?
    ensures var (sealed, wire) := Seal(d, plain).value;
            && Fits(a, h, sealed) && sealed == d.(session := sealed.session)
            && sealed.session == Some(d.session.value.(sent := d.session.value.sent + 1))
            && d.Handshake().Some? && sealed.Handshake() == d.Handshake()
            && wire == Sealed(d.Handshake().value, d.side.New?, d.session.value.sent, plain)
            && d.Handshake().value in (if d.side.New? then a else h)
  {}

  /** With both keys known, a device's own half of its transcript is its own. */
  lemma OwnHalf(d: Device)
    requires d.Handshake().Some?
    ensures d.side.New? ==> AddedsKeys(d.Handshake().value.eI, d.Handshake().value.sI)
    ensures d.side.Holder? ==> HoldersKeys(d.Handshake().value.eR, d.Handshake().value.sR)
  {}

  lemma {:induction false} OfferAnswerFits(a: set<Transcript>, h: set<Transcript>, d: Device, wire: Wire)
    requires Fits(a, h, d) && Plausible(a, h, wire) && d.phase.Awaiting?
    ensures Fits(a, h, OfferAnswered(d, wire)) && OfferAnswered(d, wire).side == d.side
  {
    if Open(d, wire).Some? {
      OpeningFits(a, h, d, wire);
      var (after, plain) := Open(d, wire).value;
      if d.side.New? && plain.Offer? {
        var request := Request(Minted(d.attempt), plain.identity);
        if Seal(after, request).Some? {
          SealingFits(a, h, after, request);
          var (sealed, sent) := Seal(after, request).value;
          OwnHalf(after);
          assert Genuine(a, h, sent);
          var next := sealed.(session := Some(sealed.session.value.(joiner := Some(Joiner(plain.identity, Minted(d.attempt))))));
          assert next.Handshake() == sealed.Handshake();
          assert Fits(a, h, next);
          SteppingFits(a, h, next, OfferLeg, Some(sent));
        }
      }
    }
  }

  lemma {:induction false} GrantingFits(a: set<Transcript>, h: set<Transcript>, d: Device, request: Wire)
    requires Fits(a, h, d) && Plausible(a, h, request)
    ensures var (after, text) := Granted(d, request);
            && Fits(a, h, after) && after == d.(session := after.session)
            && (text.Some? ==> Shown(a, h, d.side, text.value))
  {
    if Open(d, request).Some? {
      OpeningFits(a, h, d, request);
      var (after, plain) := Open(d, request).value;
      if d.side.Holder? && plain.Request? && plain.identity == Account {
        var grant := Grant(Account, plain.keys, Vault);
        if Seal(after, grant).Some? {
          SealingFits(a, h, after, grant);
          OwnHalf(after);
        }
      }
    }
  }

  lemma {:induction false} OfferingFits(a: set<Transcript>, h: set<Transcript>, d: Device)
    requires Fits(a, h, d) && d.side.Holder?
    ensures var (after, text) := Offered(d);
            && Fits(a, h, after) && after == d.(session := after.session)
            && (text.Some? ==> Shown(a, h, d.side, text.value))
  {
    if Seal(d, Offer(Account)).Some? {
      SealingFits(a, h, d, Offer(Account));
      OwnHalf(d);
    }
  }

  lemma LettingGoFits(a: set<Transcript>, h: set<Transcript>, d: Device)
    requires Fits(a, h, d) && !d.phase.Comparing?
    ensures Fits(a, h, LetGo(d)) && LetGo(d).side == d.side
  {}

  /** A suspended call's own session fits, whichever attempt the screen is at. */
  lemma VaultsAnswerFits(a: set<Transcript>, h: set<Transcript>, d: Device, id: nat)
    requires Fits(a, h, d) && CanSeal(d, id) && SessionOf(d, d.waits[id].attempt).Some?
    ensures var n, (after, text) := d.waits[id].attempt, VaultsAnswer(d, id);
            && after.session.Some? && SessionFits(a, h, d.side, n, after.session.value)
            && (SessionOf(d, n).value.confirmed ==> after.session.value.confirmed)
            && (text.Some? ==> Shown(a, h, d.side, text.value))
  {
    var wait := d.waits[id];
    assert WaitFits(a, h, d.side, wait);
    var holding := AsIn(d.side, wait.attempt, SessionOf(d, wait.attempt));
    assert Fits(a, h, holding);
    if wait.work.SealOffer? {
      OfferingFits(a, h, holding);
    } else {
      GrantingFits(a, h, holding, wait.work.request);
    }
  }

  lemma {:induction false} SealedForFits(a: set<Transcript>, h: set<Transcript>, d: Device, id: nat)
    requires Fits(a, h, d) && CanSeal(d, id)
    ensures Fits(a, h, SealedFor(d, id)) && SealedFor(d, id).side == d.side
  {
    if SessionOf(d, d.waits[id].attempt).Some? {
      VaultsAnswerFits(a, h, d, id);
      AnsweringKeepsTheRest(d, id);
    }
  }

  /** An answered call leaves everything but its session's counters and its own answer. */
  lemma AnsweringKeepsTheRest(d: Device, id: nat)
    requires CanSeal(d, id)
    ensures var after := SealedFor(d, id);
            && after.side == d.side && after.attempt == d.attempt && after.phase == d.phase && after.next == d.next
            && after.Handshake() == d.Handshake() && after.waits.Keys == d.waits.Keys && after.past.Keys == d.past.Keys
            && (after.session.Some? <==> d.session.Some?)
  {}

  lemma {:induction false} ResumingFits(a: set<Transcript>, h: set<Transcript>, d: Device, id: nat)
    requires Fits(a, h, d) && CanResume(d, id)
    ensures Fits(a, h, Resumed(d, id)) && Resumed(d, id).side == d.side
  {
    var wait, rest := d.waits[id], d.(waits := d.waits - {id});
    assert WaitFits(a, h, d.side, wait) && Fits(a, h, rest);
    if wait.answer.Some? && wait.answer.value.Some? {
      SteppingFits(a, h, rest, RequestLeg, wait.answer.value);
    }
  }

  lemma {:induction false} GrantAcceptFits(a: set<Transcript>, h: set<Transcript>, d: Device, wire: Wire)
    requires Fits(a, h, d) && Plausible(a, h, wire) && d.phase.Awaiting?
    ensures var r := GrantAccepted(d, wire);
            && Fits(a, h, r.device) && r.device.side == d.side
            && (r.adopted.Some? ==> d.side.New? && AdoptedWell(a, h, r.adopted.value))
  {
    if Open(d, wire).Some? {
      OpeningFits(a, h, d, wire);
      OwnHalf(d);
      SuspendingFits(a, h, Open(d, wire).value.0, Adopt);
    }
  }

  lemma RequestingFits(a: set<Transcript>, h: set<Transcript>, d: Device, wire: Wire, vaultOpen: bool)
    requires Fits(a, h, d) && Plausible(a, h, wire)
    ensures Fits(a, h, RequestGranted(d, wire, vaultOpen)) && RequestGranted(d, wire, vaultOpen).side == d.side
  {
    if d.side.Holder? {
      SuspendingFits(a, h, d, SealGrant(wire));
    }
  }

  lemma ScanningFits(a: set<Transcript>, h: set<Transcript>, d: Device, key: Key)
    requires Fits(a, h, d) && d.side.Holder? && d.phase.Awaiting?
    ensures var after := StepAfter(Scanned(d, key), CodeLeg, None); Fits(a, h, after) && after.side == d.side
  {
    SteppingFits(a, h, Scanned(d, key), CodeLeg, None);
  }

  lemma HearingFits(a: set<Transcript>, h: set<Transcript>, d: Device, wire: Wire, leg: Leg)
    requires Fits(a, h, d) && Plausible(a, h, wire) && d.phase.Awaiting?
    ensures Fits(a, h, ReceivedOrFailed(d, wire, leg)) && ReceivedOrFailed(d, wire, leg).side == d.side
  {
    if Received(d, wire).Some? {
      ReceivingFits(a, h, d, wire);
      SteppingFits(a, h, Received(d, wire).value, leg, None);
    }
  }

  lemma {:induction false} SubmittingFits(a: set<Transcript>, h: set<Transcript>, d: Device, wire: Wire, vaultOpen: bool)
    requires Fits(a, h, d) && Plausible(a, h, wire)
    ensures var r := Submitted(d, wire, vaultOpen);
            && Fits(a, h, r.device) && r.device.side == d.side
            && (r.adopted.Some? ==> d.side.New? && AdoptedWell(a, h, r.adopted.value))
  {
    if d.phase.Awaiting? {
      var leg := d.phase.leg;
      if leg.CodeLeg? {
        if wire.Code? && d.side.Holder? {
          ScanningFits(a, h, d, wire.key);
        }
      } else if leg.First? || leg.Second? || leg.Third? {
        HearingFits(a, h, d, wire, leg);
      } else if leg.OfferLeg? {
        OfferAnswerFits(a, h, d, wire);
      } else if leg.RequestLeg? {
        RequestingFits(a, h, d, wire, vaultOpen);
      } else if leg.GrantLeg? {
        GrantAcceptFits(a, h, d, wire);
      }
    }
  }

  lemma {:induction false} ConfirmingFits(a: set<Transcript>, h: set<Transcript>, d: Device, vaultOpen: bool)
    requires Fits(a, h, d) && d.phase.Comparing? && d.session.Some?
    requires d.Handshake().Some? && d.Handshake().value in if d.side.New? then a else h
    ensures Fits(a, h, Answered(d, true, vaultOpen)) && Answered(d, true, vaultOpen).side == d.side
  {
    var channel := d.(session := Some(d.session.value.(confirmed := true)));
    assert channel.Handshake() == d.Handshake();
    SteppingFits(a, h, channel, Compare, None);
    var stepped := StepAfter(channel, Compare, None);
    if stepped.phase.Working? {
      SuspendingFits(a, h, stepped, SealOffer);
    }
  }

  lemma MoreAgreedFits(a: set<Transcript>, h: set<Transcript>, a': set<Transcript>, h': set<Transcript>, d: Device)
    requires Fits(a, h, d) && a <= a' && h <= h'
    ensures Fits(a', h', d)
  {}

  /** Whatever is done at a device that fits, it fits after it. */
  lemma {:induction false} ReactingFits(a: set<Transcript>, h: set<Transcript>, d: Device, s: Step)
    requires Fits(a, h, d) && (s.action.Submit? ==> Plausible(a, h, s.action.wire))
    requires s.action == Answer(true) ==> Digits(d) <= if d.side.New? then a else h
    ensures var r := React(d, s);
            && Fits(a, h, r.device) && r.device.side == d.side
            && (r.adopted.Some? ==> d.side.New? && AdoptedWell(a, h, r.adopted.value))
  {
    match s.action
    case Begin(_) =>
    case Cancel =>
    case Advance =>
      if d.phase.HandOff? {
        SteppingFits(a, h, d, d.phase.leg, None);
      }
    case Submit(wire) => SubmittingFits(a, h, d, wire, s.vaultOpen);
    case Answer(matched) =>
      if matched && d.phase.Comparing? && d.session.Some? {
        assert d.Handshake().value in Digits(d);
        ConfirmingFits(a, h, d, s.vaultOpen);
      }
    case VaultAnswers(id) =>
      if CanSeal(d, id) {
        SealedForFits(a, h, d, id);
      }
    case CallResumes(id) =>
      if CanResume(d, id) {
        ResumingFits(a, h, d, id);
      }
  }

  // ---- The whole world ----

  lemma {:induction false} NextIsSound(w: World, s: Step)
    requires Sound(w) && Enabled(w, s)
    ensures Sound(Next(w, s))
  {
    var v := Next(w, s);
    var a, h := v.agreedAtAdded, v.agreedAtHolder;
    MoreAgreedFits(w.agreedAtAdded, w.agreedAtHolder, a, h, w.added);
    MoreAgreedFits(w.agreedAtAdded, w.agreedAtHolder, a, h, w.holder);
    ReactingFits(a, h, At(w, s.side), s);
    var d := React(At(w, s.side), s).device;
    if d.Handshake().Some? {
      OwnHalf(d);
    }
  }

  lemma {:induction false} EveryRunIsSound(w: World, steps: seq<Step>)
    requires Sound(w) && CanRun(w, steps)
    ensures Sound(Run(w, steps))
    decreases |steps|
  {
    if steps != [] {
      NextIsSound(w, steps[0]);
      EveryRunIsSound(Next(w, steps[0]), steps[1..]);
    }
  }
}
