/** Reminders handed to the OS: what is planned, under which identifier, and what
    a pass changes (apps/apple/Sunrise/Notifications/ReminderPlan.swift,
    ReminderScheduler.swift:131-166). */
module Reminders {
  import opened Wrappers
  import opened Sequences
  import opened Text

  datatype Kind = Task | Block | Routine

  datatype Reminder = Reminder(kind: Kind, entity: string, fireAt: int)

  const PREFIX: string := "sunrise.reminder."

  function Tag(kind: Kind): string {
    match kind
    case Task => "task"
    case Block => "block"
    case Routine => "routine"
  }

  // ---- Identifiers ----

  /** A number written out names that number only. */
  lemma {:induction false} IntTextsDiffer(a: int, b: int)
    requires IntText(a) == IntText(b)
    ensures a == b
  {
    IntTextReads(a);
    IntTextReads(b);
  }

  function Identifier(r: Reminder): string {
    PREFIX + (Tag(r.kind) + ("." + (r.entity + ("." + IntText(r.fireAt)))))
  }

  lemma {:induction false} LastDot(e1: string, d1: string, e2: string, d2: string)
    requires e1 + ("." + d1) == e2 + ("." + d2) && '.' !in d1 && '.' !in d2
    ensures e1 == e2 && d1 == d2
  {
    var s := e1 + ("." + d1);
    assert |s| == |e1| + 1 + |d1| == |e2| + 1 + |d2|;
    assert s == e2 + ("." + d2) && s[|e1|] == '.' && s[|e2|] == '.';
    assert forall i | |e1| < i < |s| :: s[i] == d1[i - |e1| - 1] && s[i] in d1;
    assert forall i | |e2| < i < |s| :: s[i] == d2[i - |e2| - 1] && s[i] in d2;
    assert e1 == s[..|e1|] && e2 == s[..|e2|];
    assert d1 == s[|e1| + 1..] && d2 == s[|e2| + 1..];
  }

  lemma SamePrefix(p: string, a: string, b: string)
    requires p + a == p + b
    ensures a == b
  {
    assert a == (p + a)[|p|..] && b == (p + b)[|p|..];
  }

  /** One identifier for one reminder: source, entity and fire time are all told apart. */
  lemma {:induction false} IdentifiersAreUnique(a: Reminder, b: Reminder)
    ensures Identifier(a) == Identifier(b) <==> a == b
  {
    if Identifier(a) == Identifier(b) {
      var x := Tag(a.kind) + ("." + (a.entity + ("." + IntText(a.fireAt))));
      var y := Tag(b.kind) + ("." + (b.entity + ("." + IntText(b.fireAt))));
      SamePrefix(PREFIX, x, y);
      assert x[0] == Tag(a.kind)[0] && y[0] == Tag(b.kind)[0];
      assert a.kind == b.kind;
      SamePrefix(Tag(a.kind), "." + (a.entity + ("." + IntText(a.fireAt))), "." + (b.entity + ("." + IntText(b.fireAt))));
      SamePrefix(".", a.entity + ("." + IntText(a.fireAt)), b.entity + ("." + IntText(b.fireAt)));
      IntTextWithout(a.fireAt, '.');
      IntTextWithout(b.fireAt, '.');
      LastDot(a.entity, IntText(a.fireAt), b.entity, IntText(b.fireAt));
      IntTextsDiffer(a.fireAt, b.fireAt);
    }
  }

  predicate IsOurs(id: string) {
    PREFIX <= id
  }

  predicate AllOurs(ids: seq<string>) {
    forall id | id in ids :: IsOurs(id)
  }

  lemma IdentifiersAreOurs(r: Reminder)
    ensures IsOurs(Identifier(r))
  {}

  // ---- The plan ----

  function Insert(sorted: seq<Reminder>, r: Reminder): seq<Reminder> {
    if sorted == [] then [r]
    else if r.fireAt < sorted[0].fireAt then [r] + sorted
    else [sorted[0]] + Insert(sorted[1..], r)
  }

  function Sorted(reminders: seq<Reminder>): seq<Reminder> {
    if reminders == [] then [] else Insert(Sorted(reminders[..|reminders| - 1]), reminders[|reminders| - 1])
  }

  function Plan(reminders: seq<Reminder>, limit: int): seq<Reminder> {
    var sorted := Sorted(reminders);
    sorted[..Min(Max(0, limit), |sorted|)]
  }

  ghost predicate EarliestFirst(s: seq<Reminder>) {
    forall i, j | 0 <= i < j < |s| :: s[i].fireAt <= s[j].fireAt
  }

  lemma {:induction false} InsertSorts(sorted: seq<Reminder>, r: Reminder)
    requires EarliestFirst(sorted)
    ensures EarliestFirst(Insert(sorted, r)) && multiset(Insert(sorted, r)) == multiset(sorted) + multiset{r}
  {
    if sorted != [] && r.fireAt >= sorted[0].fireAt {
      var rest := sorted[1..];
      InsertSorts(rest, r);
      assert sorted == [sorted[0]] + rest;
      NothingBefore(sorted[0], rest, r, Insert(rest, r));
    }
  }

  lemma NothingBefore(first: Reminder, rest: seq<Reminder>, r: Reminder, out: seq<Reminder>)
    requires EarliestFirst(out) && EarliestFirst([first] + rest) && first.fireAt <= r.fireAt
    requires multiset(out) == multiset(rest) + multiset{r}
    ensures EarliestFirst([first] + out)
  {
    forall i | 0 <= i < |rest|
      ensures first.fireAt <= rest[i].fireAt
    {
      assert ([first] + rest)[0] == first && ([first] + rest)[i + 1] == rest[i];
    }
    forall i | 0 <= i < |out|
      ensures first.fireAt <= out[i].fireAt
    {
      assert out[i] in multiset(rest) + multiset{r};
    }
  }

  lemma {:induction false} SortedSorts(reminders: seq<Reminder>)
    ensures EarliestFirst(Sorted(reminders)) && multiset(Sorted(reminders)) == multiset(reminders)
  {
    if reminders != [] {
      var n := |reminders| - 1;
      SortedSorts(reminders[..n]);
      InsertSorts(Sorted(reminders[..n]), reminders[n]);
      assert reminders == reminders[..n] + [reminders[n]];
    }
  }

  /** The cap keeps the earliest: as many as it allows, and nothing it drops fires
      before anything it keeps. */
  lemma {:induction false} TheCapKeepsTheEarliest(reminders: seq<Reminder>, limit: int) returns (dropped: seq<Reminder>)
    ensures multiset(Plan(reminders, limit)) + multiset(dropped) == multiset(reminders)
    ensures |Plan(reminders, limit)| == Min(Max(0, limit), |reminders|)
    ensures EarliestFirst(Plan(reminders, limit))
    ensures forall k, d | k in Plan(reminders, limit) && d in dropped :: k.fireAt <= d.fireAt
  {
    SortedSorts(reminders);
    var sorted := Sorted(reminders);
    assert |multiset(sorted)| == |multiset(reminders)|;
    var n := Min(Max(0, limit), |sorted|);
    var kept := sorted[..n];
    dropped := sorted[n..];
    assert sorted == kept + dropped;
    PrefixIsEarlier(sorted, n);
  }

  lemma PrefixIsEarlier(sorted: seq<Reminder>, n: nat)
    requires EarliestFirst(sorted) && n <= |sorted|
    ensures EarliestFirst(sorted[..n])
    ensures forall k, d | k in sorted[..n] && d in sorted[n..] :: k.fireAt <= d.fireAt
  {
    forall k, d | k in sorted[..n] && d in sorted[n..]
      ensures k.fireAt <= d.fireAt
    {
      var i :| 0 <= i < n && sorted[i] == k;
      var j :| 0 <= j < |sorted[n..]| && sorted[n..][j] == d;
      assert sorted[n + j] == d;
    }
  }

  // ---- One pass ----

  datatype Reconciliation = Reconciliation(add: seq<string>, cancel: seq<string>)

  function Ids(desired: seq<Reminder>): seq<string> {
    Map(desired, (r: Reminder) => Identifier(r))
  }

  function Reconcile(wanted: seq<string>, pending: seq<string>): Reconciliation {
    Reconciliation(
      Filter(wanted, NotHeld(pending)),
      Filter(pending, NotWanted(wanted)))
  }

  function NotHeld(pending: seq<string>): string -> bool {
    (id: string) => !(id in pending && IsOurs(id))
  }

  function NotWanted(wanted: seq<string>): string -> bool {
    (id: string) => IsOurs(id) && id !in wanted
  }

  function NotIn(ids: seq<string>): string -> bool {
    (id: string) => id !in ids
  }

  function Cancelled(pending: seq<string>, ids: seq<string>): seq<string> {
    Filter(pending, NotIn(ids))
  }

  /** Scheduling under an identifier already held replaces it; the OS may refuse one. */
  function Scheduled(pending: seq<string>, ids: seq<string>, refused: set<string>): seq<string>
    decreases |ids|
  {
    if ids == [] then pending
    else
      var id := ids[0];
      Scheduled(if id in refused || id in pending then pending else pending + [id], ids[1..], refused)
  }

  function Pass(pending: seq<string>, wanted: seq<string>, refused: set<string>): seq<string> {
    var plan := Reconcile(wanted, pending);
    Scheduled(Cancelled(pending, plan.cancel), plan.add, refused)
  }

  lemma {:induction false} ScheduledHolds(pending: seq<string>, ids: seq<string>, refused: set<string>, id: string)
    ensures id in Scheduled(pending, ids, refused) <==> id in pending || (id in ids && id !in refused)
    decreases |ids|
  {
    if ids != [] {
      var first := ids[0];
      var next := if first in refused || first in pending then pending else pending + [first];
      ScheduledHolds(next, ids[1..], refused, id);
      assert ids == [first] + ids[1..];
    }
  }

  /** After a pass the app holds exactly what it wants, less what was pending
      nowhere and the OS refused now; nobody else's notifications are touched. */
  lemma {:induction false} APassHoldsWhatIsWanted(pending: seq<string>, wanted: seq<string>, refused: set<string>, id: string)
    requires AllOurs(wanted)
    ensures IsOurs(id) ==>
              (id in Pass(pending, wanted, refused) <==> id in wanted && (id in pending || id !in refused))
    ensures !IsOurs(id) ==> (id in Pass(pending, wanted, refused) <==> id in pending)
  {
    var plan := Reconcile(wanted, pending);
    var kept := Cancelled(pending, plan.cancel);
    ScheduledHolds(kept, plan.add, refused, id);
    assert id in plan.cancel <==> id in pending && IsOurs(id) && id !in wanted;
    assert id in plan.add <==> id in wanted && !(id in pending && IsOurs(id));
    assert id in kept <==> id in pending && id !in plan.cancel;
  }

  lemma FilterIsEmptyIff<T>(s: seq<T>, p: T -> bool)
    ensures Filter(s, p) == [] <==> forall x | x in s :: !p(x)
  {
    if forall x | x in s :: !p(x) {
      FilterNone(s, p);
    } else {
      var x :| x in s && p(x);
      assert x in Filter(s, p);
    }
  }

  /** A second pass over the same wishes only tries again what the OS refused:
      with nothing refused it does nothing at all. */
  lemma {:induction false} ASecondPassOnlyRetries(pending: seq<string>, wanted: seq<string>, refused: set<string>)
    requires AllOurs(wanted)
    ensures var again := Reconcile(wanted, Pass(pending, wanted, refused));
            && again.cancel == []
            && (forall id :: id in again.add <==> id in wanted && id !in pending && id in refused)
            && ((forall id | id in wanted && id !in pending :: id !in refused) <==> again.add == [])
  {
    var after := Pass(pending, wanted, refused);
    forall id | id in wanted
      ensures id in after <==> id in pending || id !in refused
    {
      APassHoldsWhatIsWanted(pending, wanted, refused, id);
    }
    forall id | id in after
      ensures !(IsOurs(id) && id !in wanted)
    {
      APassHoldsWhatIsWanted(pending, wanted, refused, id);
    }
    FilterIsEmptyIff(wanted, NotHeld(after));
    FilterIsEmptyIff(after, NotWanted(wanted));
  }

  /** What a plan puts under the app's identifiers: a planned reminder is pending
      after a pass exactly if it was before or the OS took it, and nothing else of the app's is. */
  lemma {:induction false} APlannedPassHolds(pending: seq<string>, planned: seq<Reminder>, refused: set<string>)
    ensures AllOurs(Ids(planned))
    ensures var after := Pass(pending, Ids(planned), refused);
            && (forall r | r in planned :: Identifier(r) in after <==> Identifier(r) in pending || Identifier(r) !in refused)
            && (forall r | r !in planned :: Identifier(r) !in after)
            && (forall id | !IsOurs(id) :: id in after <==> id in pending)
  {
    forall r
      ensures IsOurs(Identifier(r)) && (Identifier(r) in Ids(planned) <==> r in planned)
    {
      IdentifiersAreOurs(r);
      if r in planned {
        var i :| 0 <= i < |planned| && planned[i] == r;
        assert Ids(planned)[i] == Identifier(r);
      }
      if Identifier(r) in Ids(planned) {
        var i :| 0 <= i < |planned| && Identifier(planned[i]) == Identifier(r);
        IdentifiersAreUnique(planned[i], r);
      }
    }
    assert forall i | 0 <= i < |planned| :: Ids(planned)[i] == Identifier(planned[i]);
    forall id
      ensures IsOurs(id) ==> (id in Pass(pending, Ids(planned), refused) <==> id in Ids(planned) && (id in pending || id !in refused))
      ensures !IsOurs(id) ==> (id in Pass(pending, Ids(planned), refused) <==> id in pending)
    {
      APassHoldsWhatIsWanted(pending, Ids(planned), refused, id);
    }
  }

  // ---- Any series of passes ----

  /** A pass: what it wants, and what the OS refuses it. */
  datatype Wish = Wish(wanted: seq<string>, refused: set<string>)

  /** What each pass schedules, one entry a pass. */
  function Additions(pending: seq<string>, passes: seq<Wish>): seq<seq<string>>
    decreases |passes|
  {
    if passes == [] then []
    else [Reconcile(passes[0].wanted, pending).add] + Additions(Pass(pending, passes[0].wanted, passes[0].refused), passes[1..])
  }

  lemma AdditionsCount(pending: seq<string>, passes: seq<Wish>)
    ensures |Additions(pending, passes)| == |passes|
    decreases |passes|
  {}

  /** The OS has held it since before the passes, or since one that scheduled it
      and was not refused, and every pass from then to the `k`th has wanted it. */
  predicate HeldUntil(pending: seq<string>, passes: seq<Wish>, k: nat, id: string)
    requires k <= |passes|
  {
    || (id in pending && forall m | 0 <= m < k :: id in passes[m].wanted)
    || exists j :: 0 <= j < k && id !in passes[j].refused && forall m | j <= m < k :: id in passes[m].wanted
  }

  lemma {:induction false} HeldAfterOne(pending: seq<string>, passes: seq<Wish>, k: nat, id: string)
    requires 0 < k <= |passes| && IsOurs(id) && AllOurs(passes[0].wanted)
    ensures HeldUntil(pending, passes, k, id)
        <==> HeldUntil(Pass(pending, passes[0].wanted, passes[0].refused), passes[1..], k - 1, id)
  {
    var after, rest := Pass(pending, passes[0].wanted, passes[0].refused), passes[1..];
    APassHoldsWhatIsWanted(pending, passes[0].wanted, passes[0].refused, id);
    assert forall m | 0 < m < k :: passes[m] == rest[m - 1];
    assert forall m | 0 <= m < k - 1 :: rest[m] == passes[m + 1];
    if HeldUntil(pending, passes, k, id) && !(id in after && forall m | 0 <= m < k - 1 :: id in rest[m].wanted) {
      var j :| 0 <= j < k && id !in passes[j].refused && forall m | j <= m < k :: id in passes[m].wanted;
      assert id !in rest[j - 1].refused;
    }
    if HeldUntil(after, rest, k - 1, id) {
      if j :| 0 <= j < k - 1 && id !in rest[j].refused && forall m | j <= m < k - 1 :: id in rest[m].wanted {
        assert id !in passes[j + 1].refused;
      } else if id !in pending {
        assert id !in passes[0].refused;
      }
    }
  }

  /** However many passes a burst causes, and whatever the OS refuses them: an
      identifier is scheduled in exactly those passes that want it while the OS
      does not hold it from before. With nothing refused, those are the passes
      that want it where the one before did not. */
  lemma {:induction false} ScheduledOnlyOnEntry(pending: seq<string>, passes: seq<Wish>, k: nat, id: string)
    requires forall p | p in passes :: AllOurs(p.wanted)
    requires k < |passes| && |Additions(pending, passes)| == |passes|
    ensures id in Additions(pending, passes)[k] <==> id in passes[k].wanted && !HeldUntil(pending, passes, k, id)
    ensures (forall p | p in passes :: id !in p.refused) ==>
              (id in Additions(pending, passes)[k] <==>
                id in passes[k].wanted && (if k == 0 then id !in pending else id !in passes[k - 1].wanted))
    decreases |passes|
  {
    assert passes[0] in passes && passes[k] in passes;
    if k > 0 {
      var after := Pass(pending, passes[0].wanted, passes[0].refused);
      AdditionsCount(after, passes[1..]);
      assert forall p | p in passes[1..] :: p in passes;
      ScheduledOnlyOnEntry(after, passes[1..], k - 1, id);
      if id in passes[k].wanted {
        HeldAfterOne(pending, passes, k, id);
        APassHoldsWhatIsWanted(pending, passes[0].wanted, passes[0].refused, id);
      }
    }
  }

  // ---- The scheduler ----

  class NotificationCenter {
    var pending: seq<string>
    var refused: set<string>

    constructor (pending: seq<string>, refused: set<string>)
      ensures this.pending == pending && this.refused == refused
    {
      this.pending, this.refused := pending, refused;
    }

    method Cancel(ids: seq<string>)
      modifies this`pending
      ensures pending == Cancelled(old(pending), ids)
    {
      pending := Filter(pending, NotIn(ids));
    }

    method Schedule(id: string) returns (taken: bool)
      modifies this`pending
      ensures pending == Scheduled(old(pending), [id], refused) && taken == (id !in refused)
    {
      taken := id !in refused;
      if taken && id !in pending {
        pending := pending + [id];
      }
    }
  }

  class ReminderScheduler {
    const center: NotificationCenter
    var scheduled: seq<Reminder>
    var lastPlan: Reconciliation
    var failing: bool

    constructor (center: NotificationCenter)
      ensures this.center == center && scheduled == [] && lastPlan == Reconciliation([], []) && !failing
    {
      this.center := center;
      scheduled, lastPlan, failing := [], Reconciliation([], []), false;
    }

    /** One pass: nothing is wanted unless the app may schedule and reminders are
        on, and nothing is done when the reminders cannot be read. */
    method ReconcileNow(allowed: bool, enabled: bool, reminders: Option<seq<Reminder>>, limit: int)
      modifies this, center`pending
      ensures allowed && enabled && reminders.None? ==>
                failing && scheduled == old(scheduled) && lastPlan == old(lastPlan) && center.pending == old(center.pending)
      ensures !(allowed && enabled && reminders.None?) ==>
                && scheduled == (if allowed && enabled then Plan(reminders.value, limit) else [])
                && center.pending == Pass(old(center.pending), Ids(scheduled), center.refused)
                && lastPlan == Reconcile(Ids(scheduled), old(center.pending))
                && (failing <==> (exists id :: id in lastPlan.add && id in center.refused) || (old(failing) && !(allowed && enabled)))
                && (forall r | r in scheduled ::
                      Identifier(r) in center.pending <==> Identifier(r) in old(center.pending) || Identifier(r) !in center.refused)
                && (forall r | r !in scheduled :: Identifier(r) !in center.pending)
                && (forall id | !IsOurs(id) :: id in center.pending <==> id in old(center.pending))
    {
      var desired := [];
      if allowed && enabled {
        if reminders.None? {
          failing := true;
          return;
        }
        desired := Plan(reminders.value, limit);
        failing := false;
      }
      APlannedPassHolds(center.pending, desired, center.refused);
      var plan := Reconcile(Ids(desired), center.pending);
      center.Cancel(plan.cancel);
      ScheduleAll(plan.add);
      scheduled := desired;
      lastPlan := plan;
    }

    method ScheduleAll(ids: seq<string>)
      modifies this`failing, center`pending
      ensures center.pending == Scheduled(old(center.pending), ids, center.refused)
      ensures failing <==> old(failing) || exists id :: id in ids && id in center.refused
    {
      for i := 0 to |ids|
        invariant Scheduled(center.pending, ids[i..], center.refused) == Scheduled(old(center.pending), ids, center.refused)
        invariant failing <==> old(failing) || exists k :: 0 <= k < i && ids[k] in center.refused
      {
        assert ids[i..][1..] == ids[i + 1..];
        var taken := center.Schedule(ids[i]);
        if !taken {
          failing := true;
        }
      }
    }
  }
}
