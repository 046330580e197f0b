/** What a pending alert says. An identifier is of source, entity and time alone,
    and one already held is left as it is, so an alert goes on saying what it was
    scheduled with (apps/apple/Sunrise/Notifications/ReminderPlan.swift:107-184,
    ReminderScheduler.swift:121-152). */
module ReminderContent {
  import opened Wrappers
  import opened Sequences
  import Reminders

  /** An alert to be held: its identifier, and the title, body and buttons it shows. */
  datatype Alert = Alert(id: string, content: string)

  /** What the OS holds. */
  type Held = map<string, string>

  function Ids(wanted: seq<Alert>): seq<string> {
    Map(wanted, (a: Alert) => a.id)
  }

  /** Alerts a plan can hold: the app's own, one for each identifier. */
  ghost predicate IsPlan(wanted: seq<Alert>) {
    Reminders.AllOurs(Ids(wanted)) && Distinct(Ids(wanted))
  }

  function NotHeld(held: Held): Alert -> bool {
    (a: Alert) => !(a.id in held && Reminders.IsOurs(a.id))
  }

  function Kept(held: Held, wanted: seq<Alert>): Held {
    map id | id in held && !(Reminders.IsOurs(id) && id !in Ids(wanted)) :: held[id]
  }

  /** Each alert in turn; one the OS takes replaces what it held under that identifier. */
  function Scheduled(held: Held, add: seq<Alert>, refused: set<string>): Held
    decreases |add|
  {
    if add == [] then held
    else Scheduled(if add[0].id in refused then held else held[add[0].id := add[0].content], add[1..], refused)
  }

  function Pass(held: Held, wanted: seq<Alert>, refused: set<string>): Held {
    Scheduled(Kept(held, wanted), Filter(wanted, NotHeld(held)), refused)
  }

  /** What a plan would have the alert say. */
  function Says(wanted: seq<Alert>, id: string): (r: Option<string>)
    ensures r.Some? <==> id in Ids(wanted)
  {
    if wanted == [] then None
    else if wanted[0].id == id then Some(wanted[0].content)
    else
      assert Ids(wanted) == [wanted[0].id] + Ids(wanted[1..]);
      Says(wanted[1..], id)
  }

  function Look(held: Held, id: string): Option<string> {
    if id in held then Some(held[id]) else None
  }

  lemma IdsUnfold(wanted: seq<Alert>)
    requires wanted != []
    ensures Ids(wanted) == [wanted[0].id] + Ids(wanted[1..])
    ensures Distinct(Ids(wanted)) ==> Distinct(Ids(wanted[1..])) && wanted[0].id !in Ids(wanted[1..])
  {
    assert Ids(wanted)[1..] == Ids(wanted[1..]);
    assert forall i | 0 <= i < |wanted[1..]| :: Ids(wanted[1..])[i] == Ids(wanted)[i + 1];
  }

  lemma {:induction false} ScheduledSays(held: Held, before: Held, wanted: seq<Alert>, refused: set<string>, id: string)
    requires Distinct(Ids(wanted))
    ensures Look(Scheduled(held, Filter(wanted, NotHeld(before)), refused), id)
         == if id in Ids(wanted) && id !in refused && !(id in before && Reminders.IsOurs(id)) then Says(wanted, id) else Look(held, id)
    decreases |wanted|
  {
    if wanted != [] {
      var first, rest := wanted[0], wanted[1..];
      IdsUnfold(wanted);
      var next := if !NotHeld(before)(first) || first.id in refused then held else held[first.id := first.content];
      ScheduledSays(next, before, rest, refused, id);
      if NotHeld(before)(first) {
        var add := Filter(wanted, NotHeld(before));
        assert add[0] == first && add[1..] == Filter(rest, NotHeld(before));
      } else {
        assert Filter(wanted, NotHeld(before)) == Filter(rest, NotHeld(before));
      }
    }
  }

  /** After a pass: an alert held before and still wanted says what it said, a new one
      what the plan says unless the OS refused it, and the others are gone; nobody
      else's is touched. */
  lemma {:induction false} APassSays(held: Held, wanted: seq<Alert>, refused: set<string>, id: string)
    requires IsPlan(wanted)
    ensures Look(Pass(held, wanted, refused), id)
         == if !Reminders.IsOurs(id) then Look(held, id)
            else if id !in Ids(wanted) then None
            else if id in held then Look(held, id)
            else if id in refused then None
            else Says(wanted, id)
  {
    ScheduledSays(Kept(held, wanted), held, wanted, refused, id);
  }

  /** By identifier it is the pass of `Reminders`. */
  lemma {:induction false} HoldsTheSameIds(pending: seq<string>, held: Held, wanted: seq<Alert>, refused: set<string>, id: string)
    requires IsPlan(wanted) && forall i :: i in pending <==> i in held
    ensures id in Reminders.Pass(pending, Ids(wanted), refused) <==> id in Pass(held, wanted, refused)
  {
    APassSays(held, wanted, refused, id);
    Reminders.APassHoldsWhatIsWanted(pending, Ids(wanted), refused, id);
  }

  /** What the OS holds matches the plan. */
  ghost predicate Matches(held: Held, wanted: seq<Alert>) {
    forall id | Reminders.IsOurs(id) :: Look(held, id) == Says(wanted, id)
  }

  /** One pass makes what the OS holds match the plan exactly if it refuses nothing
      new, and no alert it held already was to say something else. */
  lemma {:induction false} APassMatchesIff(held: Held, wanted: seq<Alert>, refused: set<string>)
    requires IsPlan(wanted)
    ensures Matches(Pass(held, wanted, refused), wanted)
        <==> forall id | id in Ids(wanted) :: if id in held then Some(held[id]) == Says(wanted, id) else id !in refused
  {
    forall id
      ensures Reminders.IsOurs(id) ==>
                ((Look(Pass(held, wanted, refused), id) == Says(wanted, id))
                  <==> (id in Ids(wanted) ==> if id in held then Some(held[id]) == Says(wanted, id) else id !in refused))
    {
      APassSays(held, wanted, refused, id);
    }
  }

  // ---- Any series of passes ----

  /** A pass: what it wants, and what the OS refuses it. */
  datatype Wish = Wish(wanted: seq<Alert>, refused: set<string>)

  ghost predicate AllPlans(passes: seq<Wish>) {
    forall p | p in passes :: IsPlan(p.wanted)
  }

  function After(held: Held, passes: seq<Wish>): Held
    decreases |passes|
  {
    if passes == [] then held else After(Pass(held, passes[0].wanted, passes[0].refused), passes[1..])
  }

  lemma {:induction false} WantedOnSaysOn(held: Held, passes: seq<Wish>, id: string)
    requires AllPlans(passes) && Reminders.IsOurs(id) && id in held
    requires forall p | p in passes :: id in Ids(p.wanted)
    ensures Look(After(held, passes), id) == Some(held[id])
    decreases |passes|
  {
    if passes != [] {
      assert passes[0] in passes;
      APassSays(held, passes[0].wanted, passes[0].refused, id);
      WantedOnSaysOn(Pass(held, passes[0].wanted, passes[0].refused), passes[1..], id);
    }
  }

  /** Over any series of passes from the one that scheduled an alert, while each wants
      it: it says what it was scheduled with, so it says what the last plan does exactly
      if nothing it shows has changed since. */
  lemma {:induction false} AnAlertSaysWhatItWasScheduledWith(held: Held, first: Wish, later: seq<Wish>, id: string)
    requires AllPlans([first] + later) && Reminders.IsOurs(id)
    requires id !in held && id !in first.refused && forall p | p in [first] + later :: id in Ids(p.wanted)
    ensures Look(After(held, [first] + later), id) == Says(first.wanted, id)
    ensures later != [] ==>
              var last := later[|later| - 1].wanted;
              Look(After(held, [first] + later), id) == Says(last, id) <==> Says(first.wanted, id) == Says(last, id)
  {
    var passes := [first] + later;
    assert passes[0] == first && passes[1..] == later && first in passes;
    assert forall p | p in later :: p in passes;
    APassSays(held, first.wanted, first.refused, id);
    WantedOnSaysOn(Pass(held, first.wanted, first.refused), later, id);
  }

  /** A task given a new title after its reminder was scheduled: the alert keeps the old one. */
  lemma {:induction false} ARenamedTaskKeepsItsAlert(r: Reminders.Reminder, title: string, renamed: string)
    requires title != renamed
    ensures var id := Reminders.Identifier(r);
            var before, after := [Alert(id, title)], [Alert(id, renamed)];
            && IsPlan(before) && IsPlan(after)
            && Look(After(map[], [Wish(before, {}), Wish(after, {})]), id) == Some(title)
            && !Matches(After(map[], [Wish(before, {}), Wish(after, {})]), after)
  {
    var id := Reminders.Identifier(r);
    Reminders.IdentifiersAreOurs(r);
    var before, after := [Alert(id, title)], [Alert(id, renamed)];
    assert Ids(before) == [id] && Ids(after) == [id];
    var first, second := Wish(before, {}), Wish(after, {});
    assert [first] + [second] == [first, second];
    AnAlertSaysWhatItWasScheduledWith(map[], first, [second], id);
  }
}
