/** One device's side of a pairing as the object its screen drives
    (apps/apple/Sunrise/Pairing/PairingModel.swift). The handshake and the channel
    under it are the functions of `Pairing`. */
module PairingModel {
  import opened Wrappers
  import opened Pairing

  class PairingScreen {
    const side: Side
    var attempt: nat
    var phase: Phase
    var pairing: Option<Session>
    var past: map<nat, Session>
    var waits: map<nat, Wait>
    var next: nat
    var adopted: Option<Adoption>

    constructor (side: Side)
      ensures View() == Device(side, 0, AtRest(side), None, map[], map[], 0) && adopted == None
    {
      this.side, attempt, pairing, adopted := side, 0, None, None;
      past, waits, next := map[], map[], 0;
      phase := AtRest(side);
    }

    function View(): Device
      reads this
    {
      Device(side, attempt, phase, pairing, past, waits, next)
    }

    method Become(d: Device)
      requires d.side == side
      modifies this`attempt, this`phase, this`pairing, this`past, this`waits, this`next
      ensures View() == d
    {
      attempt, phase, pairing, past, waits, next := d.attempt, d.phase, d.session, d.past, d.waits, d.next;
    }

    method Begin(offers: bool)
      modifies this
      ensures View() == Begun(old(View()), offers) && adopted == old(adopted)
    {
      if side.Holder? || pairing.Some? {
        return;
      }
      if !offers {
        phase := Failed;
        return;
      }
      attempt := attempt + 1;
      pairing := Some(Opening);
      phase := HandOff(CodeLeg, Code(View().S()));
    }

    method AdvanceLeg()
      modifies this
      ensures View() == Advanced(old(View())) && adopted == old(adopted)
    {
      if phase.HandOff? {
        StepPast(phase.leg, None);
      }
    }

    /** The script: what the screen shows once a leg is done; `text` is what that leg computed. */
    method StepPast(leg: Leg, text: Option<Wire>)
      modifies this
      ensures View() == StepAfter(old(View()), leg, text) && adopted == old(adopted)
    {
      var next := NextLeg(leg);
      if next.None? {
        phase := Done;
        return;
      }
      match next.value {
        case CodeLeg =>
        case First => ShowOrWait(First, NextMessage(View(), First));
        case Second => ShowOrWait(Second, NextMessage(View(), Second));
        case Third => ShowOrWait(Third, NextMessage(View(), Third));
        case Compare => phase := if View().Handshake().Some? then Comparing else Failed;
        case OfferLeg => phase := if Shows(side, OfferLeg) then Working else Awaiting(OfferLeg);
        case RequestLeg => ShowOrWait(RequestLeg, text);
        case GrantLeg => ShowOrWait(GrantLeg, text);
      }
    }

    method ShowOrWait(leg: Leg, text: Option<Wire>)
      modifies this`phase
      ensures View() == ShowOrAwait(old(View()), leg, text)
    {
      if !Shows(side, leg) {
        phase := Awaiting(leg);
      } else if text.Some? {
        phase := HandOff(leg, text.value);
      } else {
        phase := Failed;
      }
    }

    /** The screen lets go of its session; one whose channel is open lives on in what is suspended in it. */
    method LetGoOfSession()
      modifies this`pairing, this`past
      ensures View() == LetGo(old(View()))
    {
      if pairing.Some? && pairing.value.confirmed {
        past := past[attempt := pairing.value];
      }
      pairing := None;
    }

    /** The call waits, and the screen is at work. */
    method Suspend(work: Work)
      modifies this`phase, this`waits, this`next
      ensures View() == Suspended(old(View()), work)
    {
      phase := Working;
      waits := waits[next := Wait(attempt, work, None)];
      next := next + 1;
    }

    /** What a user pastes, leg by leg. */
    method Submit(wire: Wire, vaultOpen: bool)
      modifies this
      ensures Reaction(View(), if Submitted(old(View()), wire, vaultOpen).adopted.Some? then adopted else None)
           == Submitted(old(View()), wire, vaultOpen)
      ensures Submitted(old(View()), wire, vaultOpen).adopted.None? ==> adopted == old(adopted)
    {
      if !phase.Awaiting? {
        return;
      }
      var leg := phase.leg;
      match leg {
        case CodeLeg =>
          if !wire.Code? || side.New? {
            phase := Failed;
            return;
          }
          LetGoOfSession();
          attempt := attempt + 1;
          pairing := Some(Opening.(expected := Some(wire.key)));
          StepPast(CodeLeg, None);
        case First => Hear(wire, First);
        case Second => Hear(wire, Second);
        case Third => Hear(wire, Third);
        case OfferLeg => Become(OfferAnswered(View(), wire));
        case RequestLeg =>
          if side.New? || !vaultOpen || pairing.None? {
            phase := Failed;
            return;
          }
          Suspend(SealGrant(wire));
        case GrantLeg => AcceptGrant(wire);
        case Compare =>
      }
    }

    method Hear(wire: Wire, leg: Leg)
      modifies this
      ensures View() == ReceivedOrFailed(old(View()), wire, leg) && adopted == old(adopted)
    {
      var heard := Received(View(), wire);
      if heard.None? {
        phase := Failed;
        return;
      }
      Become(heard.value);
      StepPast(leg, None);
    }

    /** The last leg: open the grant, check whose it is and whom it names, and hand the
        root over, which is waited for. */
    method AcceptGrant(wire: Wire)
      modifies this
      ensures var r := GrantAccepted(old(View()), wire);
              View() == r.device && adopted == if r.adopted.Some? then r.adopted else old(adopted)
    {
      var plain := Open(View(), wire);
      if plain.None? {
        phase := Failed;
        return;
      }
      var t := View().Handshake().value;
      Become(plain.value.0);
      var grant := plain.value.1;
      var joiner := pairing.value.joiner;
      if !grant.Grant? || side.Holder? || joiner.None? || grant.signer != joiner.value.identity
         || grant.keys != joiner.value.keys {
        phase := Failed;
        return;
      }
      adopted := Some(Adoption(t, grant.keys, grant.root));
      Suspend(Adopt);
    }

    /** What a user says of the digits. */
    method Confirm(matched: bool, vaultOpen: bool)
      modifies this
      ensures View() == Answered(old(View()), matched, vaultOpen) && adopted == old(adopted)
    {
      if !phase.Comparing? || pairing.None? {
        return;
      }
      if !matched {
        LetGoOfSession();
        phase := Mismatch;
        return;
      }
      pairing := Some(pairing.value.(confirmed := true));
      StepPast(Compare, None);
      if !phase.Working? {
        return;
      }
      if !vaultOpen {
        phase := Failed;
        return;
      }
      Suspend(SealOffer);
    }

    /** The vault's part of a suspended call, on the session that call holds. */
    method VaultAnswer(id: nat)
      requires CanSeal(View(), id)
      modifies this
      ensures View() == SealedFor(old(View()), id) && adopted == old(adopted)
    {
      var wait := waits[id];
      var (after, text) := VaultsAnswer(View(), id);
      if wait.attempt == attempt && pairing.Some? {
        pairing := after.session;
      } else if after.session.Some? {
        past := past[wait.attempt := after.session.value];
      }
      waits := waits[id := wait.(answer := Some(text))];
    }

    /** What follows an await: the screen is written to, whatever it has moved to. */
    method GoOn(id: nat)
      requires CanResume(View(), id)
      modifies this
      ensures View() == Resumed(old(View()), id) && adopted == old(adopted)
    {
      var wait := waits[id];
      waits := waits - {id};
      if wait.work.Adopt? {
        LetGoOfSession();
        phase := Done;
      } else if wait.answer.value.None? {
        phase := Failed;
      } else if wait.work.SealOffer? {
        phase := HandOff(OfferLeg, wait.answer.value.value);
      } else {
        StepPast(RequestLeg, wait.answer.value);
      }
    }

    method Cancel()
      modifies this
      ensures View() == Cancelled(old(View())) && adopted == old(adopted)
    {
      LetGoOfSession();
      phase := AtRest(side);
    }
  }
}
