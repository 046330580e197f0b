/** Two devices pairing by hand over a courier that may do anything
    (apps/apple/Sunrise/Pairing/PairingModel.swift, crates/sunrise-client-core/src/pairing/device.rs,
    crates/sunrise-pairing/src/protocol). Cryptography is symbolic: a key has an
    owner, a handshake message is made by whoever owns its keys, and a channel is
    sealed and opened by the two parties of its transcript. The digits stand for
    the whole transcript. */
module Pairing {
  import opened Wrappers

  /** The device being added, and the one that holds the account. */
  datatype Side = New | Holder

  /** A key made by a device for one attempt, or anybody else's. */
  datatype Key = Own(side: Side, attempt: nat, isStatic: bool) | Foreign(n: nat)

  /** What a Noise XX handshake binds: both ephemeral and both static keys. */
  datatype Transcript = Transcript(eI: Key, eR: Key, sI: Key, sR: Key)

  /** The keys a device mints for itself when it asks for a certificate. */
  datatype DeviceKeys = Minted(attempt: nat) | OtherKeys(n: nat)

  datatype Identity = Account | Stranger(n: nat)

  datatype Root = Vault | OtherRoot(n: nat)

  datatype Plain =
    | Offer(identity: Identity)
    | Request(keys: DeviceKeys, identity: Identity)
    | Grant(signer: Identity, keys: DeviceKeys, root: Root)

  datatype Wire =
    | Code(key: Key)
    | Hello(e: Key)
    | Reply(eI: Key, eR: Key, sR: Key)
    | Final(eI: Key, eR: Key, sR: Key, sI: Key)
    | Sealed(t: Transcript, byInitiator: bool, n: nat, plain: Plain)
    | Garbage

  datatype Leg = CodeLeg | First | Second | Third | Compare | OfferLeg | RequestLeg | GrantLeg

  datatype Phase =
    | Idle
    | HandOff(leg: Leg, wire: Wire)
    | Awaiting(leg: Leg)
    | Comparing
    | Working
    | Done
    | Mismatch
    | Failed

  /** What the joiner remembers of the offer it answered. */
  datatype Joiner = Joiner(identity: Identity, keys: DeviceKeys)

  datatype Session = Session(
    expected: Option<Key>,
    peerE: Option<Key>,
    peerS: Option<Key>,
    confirmed: bool,
    sent: nat,
    received: nat,
    joiner: Option<Joiner>)

  const Opening: Session := Session(None, None, None, false, 0, 0, None)

  /** What a suspended call waits for: the vault to seal something, or the session to adopt a root. */
  datatype Work = SealOffer | SealGrant(request: Wire) | Adopt

  /** A suspended call: the attempt whose session it holds on to, and what the
      vault has answered, if it has, with a text or with a refusal. */
  datatype Wait = Wait(attempt: nat, work: Work, answer: Option<Option<Wire>>)

  /** `past`: the sessions let go of with their channel open, by attempt: a call
      suspended in one still holds it. `waits`: the calls suspended, by the number
      each was given. */
  datatype Device = Device(
    side: Side,
    attempt: nat,
    phase: Phase,
    session: Option<Session>,
    past: map<nat, Session>,
    waits: map<nat, Wait>,
    next: nat)
  {
    function E(): Key {
      Own(side, attempt, false)
    }

    function S(): Key {
      Own(side, attempt, true)
    }

    /** The transcript, once both peer keys are known. */
    function Handshake(): Option<Transcript> {
      if session.None? || session.value.peerE.None? || session.value.peerS.None? then None
      else if side.New? then Some(Transcript(E(), session.value.peerE.value, S(), session.value.peerS.value))
      else Some(Transcript(session.value.peerE.value, E(), session.value.peerS.value, S()))
    }
  }

  datatype Adoption = Adoption(t: Transcript, keys: DeviceKeys, root: Root)

  // ---- Sealing and opening ----

  /** Seal under the channel, which only a confirmed session has. */
  function Seal(d: Device, plain: Plain): Option<(Device, Wire)> {
    if d.Handshake().None? || !d.session.value.confirmed then None
    else
      var s := d.session.value;
      Some((d.(session := Some(s.(sent := s.sent + 1))), Sealed(d.Handshake().value, d.side.New?, s.sent, plain)))
  }

  /** Open the next message the peer sealed under this very transcript. */
  function Open(d: Device, wire: Wire): Option<(Device, Plain)> {
    if d.Handshake().None? || !d.session.value.confirmed || !wire.Sealed? then None
    else
      var s := d.session.value;
      if wire.t == d.Handshake().value && wire.byInitiator == d.side.Holder? && wire.n == s.received
      then Some((d.(session := Some(s.(received := s.received + 1))), wire.plain))
      else None
  }

  // ---- The script ----

  function NextLeg(leg: Leg): Option<Leg> {
    match leg
    case CodeLeg => Some(First)
    case First => Some(Second)
    case Second => Some(Third)
    case Third => Some(Compare)
    case Compare => Some(OfferLeg)
    case OfferLeg => Some(RequestLeg)
    case RequestLeg => Some(GrantLeg)
    case GrantLeg => None
  }

  predicate Shows(side: Side, leg: Leg) {
    match leg
    case CodeLeg => side.New?
    case First => side.New?
    case Third => side.New?
    case RequestLeg => side.New?
    case Second => side.Holder?
    case OfferLeg => side.Holder?
    case GrantLeg => side.Holder?
    case Compare => false
  }

  /** The next handshake message of this side, when it has heard what it answers. */
  function NextMessage(d: Device, leg: Leg): Option<Wire> {
    if d.session.None? then None
    else
      var s := d.session.value;
      match leg
      case First => Some(Hello(d.E()))
      case Second => if s.peerE.Some? then Some(Reply(s.peerE.value, d.E(), d.S())) else None
      case Third => if s.peerE.Some? && s.peerS.Some? then Some(Final(d.E(), s.peerE.value, s.peerS.value, d.S())) else None
      case _ => None
  }

  /** The phase after a leg is done; `text` is what that leg computed for the next one to show. */
  function StepAfter(d: Device, leg: Leg, text: Option<Wire>): Device {
    match NextLeg(leg)
    case None => d.(phase := Done)
    case Some(next) =>
      match next
      case CodeLeg => d
      case First => ShowOrAwait(d, next, NextMessage(d, next))
      case Second => ShowOrAwait(d, next, NextMessage(d, next))
      case Third => ShowOrAwait(d, next, NextMessage(d, next))
      case Compare => d.(phase := if d.Handshake().Some? then Comparing else Failed)
      case OfferLeg => d.(phase := if Shows(d.side, next) then Working else Awaiting(next))
      case RequestLeg => ShowOrAwait(d, next, text)
      case GrantLeg => ShowOrAwait(d, next, text)
  }

  function ShowOrAwait(d: Device, leg: Leg, text: Option<Wire>): Device {
    if !Shows(d.side, leg) then d.(phase := Awaiting(leg))
    else if text.Some? then d.(phase := HandOff(leg, text.value))
    else d.(phase := Failed)
  }

  function Failing(d: Device): Device {
    d.(phase := Failed)
  }

  /** The screen lets go of its session. Discarding it drops the handshake, and with
      it the keys; a channel the digits have opened is past discarding. */
  function LetGo(d: Device): Device {
    var past := if d.session.Some? && d.session.value.confirmed then d.past[d.attempt := d.session.value] else d.past;
    d.(session := None, past := past)
  }

  /** The call is suspended, with the screen at work. */
  function Suspended(d: Device, work: Work): Device {
    d.(phase := Working, waits := d.waits[d.next := Wait(d.attempt, work, None)], next := d.next + 1)
  }

  // ---- What a person does at a device ----

  /** A new attempt, if none is under way; a code that cannot be made is an error. */
  function Begun(d: Device, offers: bool): Device {
    if d.side.Holder? || d.session.Some? then d
    else if !offers then Failing(d)
    else
      var started := d.(attempt := d.attempt + 1, session := Some(Opening));
      started.(phase := HandOff(CodeLeg, Code(started.S())))
  }

  function Advanced(d: Device): Device {
    if d.phase.HandOff? then StepAfter(d, d.phase.leg, None) else d
  }

  /** A handshake message read, or nothing when it does not answer this session. */
  function Received(d: Device, wire: Wire): Option<Device> {
    if d.session.None? then None
    else
      var s := d.session.value;
      match wire
      case Hello(e) =>
        if d.side.Holder? && s.peerE.None? then Some(d.(session := Some(s.(peerE := Some(e))))) else None
      case Reply(eI, eR, sR) =>
        if d.side.New? && eI == d.E() && s.peerE.None?
        then Some(d.(session := Some(s.(peerE := Some(eR), peerS := Some(sR))))) else None
      case Final(eI, eR, sR, sI) =>
        if d.side.Holder? && s.peerE == Some(eI) && eR == d.E() && sR == d.S() && s.peerS.None?
        then (if s.expected == Some(sI) then Some(d.(session := Some(s.(peerS := Some(sI))))) else None)
        else None
      case _ => None
  }

  datatype Reaction = Reaction(device: Device, adopted: Option<Adoption>)

  function Submitted(d: Device, wire: Wire, vaultOpen: bool): Reaction {
    if !d.phase.Awaiting? then Reaction(d, None)
    else match d.phase.leg
      case CodeLeg =>
        if !wire.Code? || d.side.New? then Reaction(Failing(d), None)
        else Reaction(StepAfter(Scanned(d, wire.key), CodeLeg, None), None)
      case First => Reaction(ReceivedOrFailed(d, wire, First), None)
      case Second => Reaction(ReceivedOrFailed(d, wire, Second), None)
      case Third => Reaction(ReceivedOrFailed(d, wire, Third), None)
      case OfferLeg => Reaction(OfferAnswered(d, wire), None)
      case RequestLeg => Reaction(RequestGranted(d, wire, vaultOpen), None)
      case GrantLeg => GrantAccepted(d, wire)
      case Compare => Reaction(d, None)
  }

  function Scanned(d: Device, key: Key): Device {
    LetGo(d).(attempt := d.attempt + 1, session := Some(Opening.(expected := Some(key))))
  }

  function ReceivedOrFailed(d: Device, wire: Wire, leg: Leg): Device {
    match Received(d, wire)
    case Some(heard) => StepAfter(heard, leg, None)
    case None => Failing(d)
  }

  /** `request_device_cert`: open the offer, mint the keys, seal the request. */
  function OfferAnswered(d: Device, wire: Wire): Device {
    match Open(d, wire)
    case None => Failing(d)
    case Some((after, plain)) =>
      if d.side.Holder? || !plain.Offer? then Failing(after)
      else
        var keys := Minted(d.attempt);
        match Seal(after, Request(keys, plain.identity))
        case None => Failing(after)
        case Some((sealed, request)) =>
          var joiner := Joiner(plain.identity, keys);
          StepAfter(sealed.(session := Some(sealed.session.value.(joiner := Some(joiner)))), OfferLeg, Some(request))
  }

  /** The request is handed to the vault, if this is the side that has one open, with the session it came in. */
  function RequestGranted(d: Device, wire: Wire, vaultOpen: bool): Device {
    if d.side.New? || !vaultOpen || d.session.None? then Failing(d) else Suspended(d, SealGrant(wire))
  }

  /** Open the grant and adopt it: signed by the identity offered, for the keys minted. */
  function GrantAccepted(d: Device, wire: Wire): Reaction {
    match Open(d, wire)
    case None => Reaction(Failing(d), None)
    case Some((after, plain)) =>
      var joiner := after.session.value.joiner;
      if !plain.Grant? || d.side.Holder? || joiner.None?
         || plain.signer != joiner.value.identity || plain.keys != joiner.value.keys
      then Reaction(Failing(after), None)
      else Reaction(Suspended(after, Adopt), Some(Adoption(d.Handshake().value, plain.keys, plain.root)))
  }

  function Answered(d: Device, matched: bool, vaultOpen: bool): Device {
    if !d.phase.Comparing? || d.session.None? then d
    else if !matched then LetGo(d).(phase := Mismatch)
    else
      var channel := d.(session := Some(d.session.value.(confirmed := true)));
      var stepped := StepAfter(channel, Compare, None);
      if !stepped.phase.Working? then stepped
      else if !vaultOpen then Failing(stepped)
      else Suspended(stepped, SealOffer)
  }

  function Cancelled(d: Device): Device {
    LetGo(d).(phase := AtRest(d.side))
  }

  function AtRest(side: Side): Phase {
    if side.Holder? then Awaiting(CodeLeg) else Idle
  }

  // ---- What the vault does, and what comes back ----

  /** The session of an attempt, held by the screen or by what is suspended in it. */
  function SessionOf(d: Device, n: nat): Option<Session> {
    if n == d.attempt && d.session.Some? then d.session else if n in d.past then Some(d.past[n]) else None
  }

  /** The device as it is to a call suspended in that attempt. */
  function AsIn(side: Side, n: nat, session: Option<Session>): Device {
    Device(side, n, Working, session, map[], map[], 0)
  }

  function WithSessionOf(d: Device, n: nat, session: Option<Session>): Device {
    if n == d.attempt && d.session.Some? then d.(session := session)
    else if session.Some? then d.(past := d.past[n := session.value]) else d
  }

  /** Open the request, certify exactly its keys for this account, seal the grant. */
  function Granted(d: Device, request: Wire): (Device, Option<Wire>) {
    match Open(d, request)
    case None => (d, None)
    case Some((after, plain)) =>
      if d.side.New? || !plain.Request? || plain.identity != Account then (after, None)
      else match Seal(after, Grant(Account, plain.keys, Vault))
        case None => (after, None)
        case Some((sealed, grant)) => (sealed, Some(grant))
  }

  function Offered(d: Device): (Device, Option<Wire>) {
    match Seal(d, Offer(Account))
    case None => (d, None)
    case Some((sealed, offer)) => (sealed, Some(offer))
  }

  predicate CanSeal(d: Device, id: nat) {
    id in d.waits && d.waits[id].answer.None? && !d.waits[id].work.Adopt?
  }

  /** What the vault answers a call with, on the session the call holds, and that session after it. */
  function VaultsAnswer(d: Device, id: nat): (Device, Option<Wire>)
    requires id in d.waits
  {
    var wait := d.waits[id];
    var holding := AsIn(d.side, wait.attempt, SessionOf(d, wait.attempt));
    if wait.work.SealOffer? then Offered(holding)
    else if wait.work.SealGrant? then Granted(holding, wait.work.request)
    else (holding, None)
  }

  /** The vault's own actor does its part of a suspended call, whether or not the
      screen has moved on since: a channel once open is all it asks for. */
  function SealedFor(d: Device, id: nat): Device
    requires CanSeal(d, id)
  {
    var wait, (after, text) := d.waits[id], VaultsAnswer(d, id);
    WithSessionOf(d, wait.attempt, after.session).(waits := d.waits[id := wait.(answer := Some(text))])
  }

  predicate CanResume(d: Device, id: nat) {
    id in d.waits && (d.waits[id].answer.Some? || d.waits[id].work.Adopt?)
  }

  /** A suspended call goes on: it looks at no attempt before it writes. */
  function Resumed(d: Device, id: nat): Device
    requires CanResume(d, id)
  {
    var wait, rest := d.waits[id], d.(waits := d.waits - {id});
    if wait.work.Adopt? then LetGo(rest).(phase := Done)
    else match wait.answer.value
      case None => Failing(rest)
      case Some(text) =>
        if wait.work.SealOffer? then rest.(phase := HandOff(OfferLeg, text)) else StepAfter(rest, RequestLeg, Some(text))
  }
}
