/** What the renewal loop tells the sync driver
    (apps/apple/Sunrise/Identity/AccountModelRenewalTick.swift:33-53). */
module RenewalLoop {
  import opened Wrappers
  import opened AccountSession
  import opened AccountModel

  /** What the Keychain answers while the loop runs. */
  datatype Keychain = Keychain(load: Answer, save: Answer, clear: Removal)

  /** The account as the loop wakes for turn `n`, whatever ran while it slept. */
  function Awake(a: Account, turns: seq<Turn>, n: nat, k: Keychain): Account
    requires n <= |turns|
    decreases n, 0
  {
    if n == 0 then a else AllInterrupted(LookedAt(a, turns, n - 1, k), turns[n - 1].asleep, k.load, k.clear)
  }

  /** And at the end of that turn's look. */
  function LookedAt(a: Account, turns: seq<Turn>, n: nat, k: Keychain): Account
    requires n < |turns|
    decreases n, 1
  {
    Looked(Awake(a, turns, n, k), turns[n], k.load, k.save, k.clear)
  }

  /** The loop was not cancelled before turn `n`. */
  predicate Reaches(turns: seq<Turn>, n: nat) {
    n <= |turns| && forall m | 0 <= m < n :: !turns[m].cancelledAfterLook && !turns[m].cancelledAsleep
  }

  /** Turn `n` is reached, its look moves the bearer, and the loop has not been cancelled by its end. */
  predicate Changes(a: Account, turns: seq<Turn>, n: nat, k: Keychain) {
    && n < |turns| && Reaches(turns, n)
    && LookedAt(a, turns, n, k).bearer != Awake(a, turns, n, k).bearer && !turns[n].cancelledAfterLook
  }

  /** Turn `n` is reached and the bearer moves while the loop sleeps after it. */
  predicate MovesAsleep(a: Account, turns: seq<Turn>, n: nat, k: Keychain) {
    && n < |turns| && Reaches(turns, n) && !turns[n].cancelledAfterLook
    && Awake(a, turns, n + 1, k).bearer != LookedAt(a, turns, n, k).bearer
  }

  function Runs(a: Account, turns: seq<Turn>, i: nat, told: seq<Option<string>>, k: Keychain): Ran {
    RunFrom(a, turns, i, told, k.load, k.save, k.clear)
  }

  // ---- What is told ----

  /** The turns from `i` on whose look changes the bearer, and the bearer each ends with. */
  function ChangesFrom(a: Account, turns: seq<Turn>, i: nat, k: Keychain): map<nat, Option<string>> {
    map n: nat | i <= n < |turns| && Changes(a, turns, n, k) :: LookedAt(a, turns, n, k).bearer
  }

  /** `js` are the keys of `changes` in ascending order, and `told` what they map to. */
  ghost predicate InOrder(changes: map<nat, Option<string>>, told: seq<Option<string>>, js: seq<nat>)
    decreases |js|
  {
    if js == [] then changes == map[] && told == []
    else
      && told != [] && js[0] in changes && told[0] == changes[js[0]]
      && (forall n | n in changes && n != js[0] :: js[0] < n)
      && InOrder(changes - {js[0]}, told[1..], js[1..])
  }

  lemma {:induction false} InOrderAt(changes: map<nat, Option<string>>, told: seq<Option<string>>, js: seq<nat>, p: nat)
    requires InOrder(changes, told, js) && p < |js|
    ensures |told| == |js| && js[p] in changes && told[p] == changes[js[p]]
    ensures p > 0 ==> js[p - 1] < js[p] && forall n | n in changes :: n <= js[p - 1] || js[p] <= n
    decreases p
  {
    InOrderCounts(changes, told, js);
    if p > 0 {
      InOrderAt(changes - {js[0]}, told[1..], js[1..], p - 1);
      if p == 1 {
        assert js[1..][0] == js[1];
        LeastIsFirst(changes - {js[0]}, told[1..], js[1..]);
      } else {
        InOrderAt(changes - {js[0]}, told[1..], js[1..], p - 2);
        assert js[1..][p - 2] == js[p - 1] && js[1..][p - 1] == js[p];
        assert js[0] < js[p - 1];
      }
      forall n | n in changes
        ensures n <= js[p - 1] || js[p] <= n
      {
        assert n == js[0] || n in changes - {js[0]};
      }
    }
  }

  lemma {:induction false} InOrderCounts(changes: map<nat, Option<string>>, told: seq<Option<string>>, js: seq<nat>)
    requires InOrder(changes, told, js)
    ensures |told| == |js|
    decreases |js|
  {
    if js != [] {
      InOrderCounts(changes - {js[0]}, told[1..], js[1..]);
    }
  }

  lemma LeastIsFirst(changes: map<nat, Option<string>>, told: seq<Option<string>>, js: seq<nat>)
    requires InOrder(changes, told, js) && js != []
    ensures js[0] in changes && forall n | n in changes :: js[0] <= n
  {}

  /** One turn of the loop that is not cancelled in it. */
  lemma {:induction false} TurnsOn(a: Account, turns: seq<Turn>, i: nat, told: seq<Option<string>>, k: Keychain)
    returns (news: seq<Option<string>>, c: Account)
    requires i < |turns| && !turns[i].cancelledAfterLook && !turns[i].cancelledAsleep
    ensures var b := Looked(a, turns[i], k.load, k.save, k.clear);
            news == (if b.bearer != a.bearer then [b.bearer] else []) && c == AllInterrupted(b, turns[i].asleep, k.load, k.clear)
    ensures Runs(a, turns, i, told, k) == Runs(c, turns, i + 1, told + news, k)
    ensures Runs(a, turns, i, [], k) == Runs(c, turns, i + 1, news, k)
  {
    var b := Looked(a, turns[i], k.load, k.save, k.clear);
    news := if b.bearer != a.bearer then [b.bearer] else [];
    c := AllInterrupted(b, turns[i].asleep, k.load, k.clear);
    assert told + [] == told && [] + news == news;
  }

  lemma {:induction false} TellingAdds(a: Account, turns: seq<Turn>, i: nat, told: seq<Option<string>>, k: Keychain)
    ensures Runs(a, turns, i, told, k).told == told + Runs(a, turns, i, [], k).told
    decreases |turns| - i
  {
    if i < |turns| && !turns[i].cancelledAfterLook && !turns[i].cancelledAsleep {
      var news, c := TurnsOn(a, turns, i, told, k);
      TellingAdds(c, turns, i + 1, told + news, k);
      TellingAdds(c, turns, i + 1, news, k);
      assert (told + news) + Runs(c, turns, i + 1, [], k).told == told + (news + Runs(c, turns, i + 1, [], k).told);
    }
  }

  lemma {:induction false} ToldFrom(a: Account, turns: seq<Turn>, i: nat, k: Keychain) returns (js: seq<nat>)
    requires Reaches(turns, i)
    ensures InOrder(ChangesFrom(a, turns, i, k), Runs(Awake(a, turns, i, k), turns, i, [], k).told, js)
    decreases |turns| - i
  {
    if i == |turns| {
      return [];
    }
    var rest: seq<nat> := [];
    if turns[i].cancelledAfterLook || turns[i].cancelledAsleep {
      NothingIsToldAfter(a, turns, i, k);
    } else {
      rest := ToldFrom(a, turns, i + 1, k);
    }
    var news, told := OneTurn(a, turns, i, k);
    ChangesHereAndLater(a, turns, i, k);
    if i in ChangesFrom(a, turns, i, k) {
      Prepends(ChangesFrom(a, turns, i, k), i, told, rest);
      js := [i] + rest;
    } else {
      var changes := ChangesFrom(a, turns, i, k);
      assert changes - {i} == changes && news + told == told;
      js := rest;
    }
  }

  lemma Prepends(changes: map<nat, Option<string>>, i: nat, told: seq<Option<string>>, rest: seq<nat>)
    requires i in changes && InOrder(changes - {i}, told, rest)
    requires forall n | n in changes && n != i :: i < n
    ensures InOrder(changes, [changes[i]] + told, [i] + rest)
  {
    assert ([i] + rest)[1..] == rest && ([changes[i]] + told)[1..] == told;
  }

  lemma {:induction false} ChangesHereAndLater(a: Account, turns: seq<Turn>, i: nat, k: Keychain)
    requires i < |turns|
    ensures var changes, later := ChangesFrom(a, turns, i, k), ChangesFrom(a, turns, i + 1, k);
            && (i in changes <==> Changes(a, turns, i, k)) && i !in later
            && (i in changes ==> changes[i] == LookedAt(a, turns, i, k).bearer)
            && changes - {i} == later && forall n | n in changes && n != i :: i < n
  {}

  /** What one turn tells, and what the turns after it do. */
  lemma {:induction false} OneTurn(a: Account, turns: seq<Turn>, i: nat, k: Keychain)
    returns (news: seq<Option<string>>, told: seq<Option<string>>)
    requires i < |turns| && Reaches(turns, i)
    ensures news == if Changes(a, turns, i, k) then [LookedAt(a, turns, i, k).bearer] else []
    ensures told == if turns[i].cancelledAfterLook || turns[i].cancelledAsleep then []
                    else Runs(Awake(a, turns, i + 1, k), turns, i + 1, [], k).told
    ensures Runs(Awake(a, turns, i, k), turns, i, [], k).told == news + told
  {
    var here, b := Awake(a, turns, i, k), LookedAt(a, turns, i, k);
    if turns[i].cancelledAfterLook || turns[i].cancelledAsleep {
      news, told := if Changes(a, turns, i, k) then [b.bearer] else [], [];
      assert [] + news == news;
    } else {
      var c;
      news, c := TurnsOn(here, turns, i, [], k);
      TellingAdds(c, turns, i + 1, news, k);
      told := Runs(c, turns, i + 1, [], k).told;
    }
  }

  lemma {:induction false} NothingIsToldAfter(a: Account, turns: seq<Turn>, i: nat, k: Keychain)
    requires i < |turns| && (turns[i].cancelledAfterLook || turns[i].cancelledAsleep)
    ensures ChangesFrom(a, turns, i + 1, k) == map[]
  {
    assert forall n: nat | i < n < |turns| :: !Reaches(turns, n);
  }

  /** What the loop tells is exactly the bearers its looks changed, in order,
      each once, and none from a look it was cancelled in or after. */
  lemma {:induction false} ToldAreTheChanges(a: Account, turns: seq<Turn>, k: Keychain) returns (js: seq<nat>)
    ensures InOrder(ChangesFrom(a, turns, 0, k), Runs(a, turns, 0, [], k).told, js)
  {
    js := ToldFrom(a, turns, 0, k);
  }

  /** Between a told look and a later turn, the bearer stays as it was told
      unless it moves while the loop sleeps. */
  lemma {:induction false} StaysAsTold(a: Account, turns: seq<Turn>, m: nat, n: nat, k: Keychain)
    requires m < n <= |turns| && Reaches(turns, n)
    requires forall t | m < t < n :: !Changes(a, turns, t, k)
    requires forall t | m <= t < n :: !MovesAsleep(a, turns, t, k)
    ensures Awake(a, turns, n, k).bearer == LookedAt(a, turns, m, k).bearer
    decreases n
  {
    if m < n - 1 {
      StaysAsTold(a, turns, m, n - 1, k);
      assert !Changes(a, turns, n - 1, k);
    }
    assert !MovesAsleep(a, turns, n - 1, k);
  }

  /** A look never tells what the one before it told, unless the bearer moved
      while the loop slept in between. */
  lemma {:induction false} NothingIsToldTwice(a: Account, turns: seq<Turn>, k: Keychain, js: seq<nat>, p: nat)
    requires InOrder(ChangesFrom(a, turns, 0, k), Runs(a, turns, 0, [], k).told, js) && 0 < p < |js| == |Runs(a, turns, 0, [], k).told|
    requires Runs(a, turns, 0, [], k).told[p] == Runs(a, turns, 0, [], k).told[p - 1]
    ensures exists n :: js[p - 1] <= n < js[p] && MovesAsleep(a, turns, n, k)
  {
    var m, n := js[p - 1], js[p];
    InOrderAt(ChangesFrom(a, turns, 0, k), Runs(a, turns, 0, [], k).told, js, p - 1);
    InOrderAt(ChangesFrom(a, turns, 0, k), Runs(a, turns, 0, [], k).told, js, p);
    forall t | m < t < n
      ensures !Changes(a, turns, t, k)
    {
      assert t !in ChangesFrom(a, turns, 0, k);
    }
    if !exists t :: m <= t < n && MovesAsleep(a, turns, t, k) {
      StaysAsTold(a, turns, m, n, k);
    }
  }

  // ---- What the driver holds ----

  /** The token the sync driver is using: the last it was told, or the one it began with. */
  function DriversToken(initial: Option<string>, told: seq<Option<string>>): Option<string> {
    if told == [] then initial else told[|told| - 1]
  }

  /** The loop's last look changed the bearer and could no longer be told. */
  predicate LastChangeUntold(a: Account, turns: seq<Turn>, i: nat, k: Keychain) {
    exists n :: i <= n < |turns| && Reaches(turns, n) && turns[n].cancelledAfterLook
             && LookedAt(a, turns, n, k).bearer != Awake(a, turns, n, k).bearer
  }

  /** The bearer moved while the loop slept, and no later look told of a change. */
  predicate MovedSinceTold(a: Account, turns: seq<Turn>, i: nat, k: Keychain) {
    exists n :: i <= n < |turns| && MovesAsleep(a, turns, n, k) && forall m | n < m < |turns| :: !Changes(a, turns, m, k)
  }

  predicate ToldFromHere(a: Account, turns: seq<Turn>, i: nat, k: Keychain) {
    exists m :: i <= m < |turns| && Changes(a, turns, m, k)
  }

  lemma {:induction false} HoldsFrom(a: Account, turns: seq<Turn>, i: nat, told: seq<Option<string>>, initial: Option<string>,
                                     k: Keychain, behind: bool)
    requires Reaches(turns, i)
    requires DriversToken(initial, told) == Awake(a, turns, i, k).bearer || behind
    ensures var ran := Runs(Awake(a, turns, i, k), turns, i, told, k);
            || DriversToken(initial, ran.told) == ran.account.bearer
            || LastChangeUntold(a, turns, i, k) || MovedSinceTold(a, turns, i, k)
            || (behind && !ToldFromHere(a, turns, i, k))
    decreases |turns| - i
  {
    if i < |turns| {
      var here, b := Awake(a, turns, i, k), LookedAt(a, turns, i, k);
      var tells := b.bearer != here.bearer && !turns[i].cancelledAfterLook;
      var told' := if tells then told + [b.bearer] else told;
      assert tells <==> Changes(a, turns, i, k);
      if turns[i].cancelledAfterLook || turns[i].cancelledAsleep {
        assert forall m | i < m < |turns| :: !Reaches(turns, m) && !Changes(a, turns, m, k);
        if turns[i].cancelledAfterLook {
          assert b.bearer == here.bearer || LastChangeUntold(a, turns, i, k);
        } else {
          assert b.bearer == Awake(a, turns, i + 1, k).bearer || MovesAsleep(a, turns, i, k);
        }
      } else {
        var slept := MovesAsleep(a, turns, i, k);
        HoldsFrom(a, turns, i + 1, told', initial, k, slept || (behind && !tells));
      }
    }
  }

  /** The driver ends up with the bearer the model holds, unless the loop was
      cancelled in a look that changed it, or it moved while the loop slept and
      no look has told of a change since. */
  lemma {:induction false} TheDriverHoldsTheBearer(a: Account, turns: seq<Turn>, k: Keychain)
    ensures var ran := Runs(a, turns, 0, [], k);
            || DriversToken(a.bearer, ran.told) == ran.account.bearer
            || LastChangeUntold(a, turns, 0, k) || MovedSinceTold(a, turns, 0, k)
  {
    HoldsFrom(a, turns, 0, [], a.bearer, k, false);
  }

  /** When nothing moves the bearer asleep, that is exact: the driver misses the
      bearer if and only if the loop was cancelled in a look that changed it. */
  lemma {:induction false} ADriverMissesOnlyTheLast(a: Account, turns: seq<Turn>, k: Keychain)
    requires forall n | 0 <= n < |turns| :: !MovesAsleep(a, turns, n, k)
    ensures var ran := Runs(a, turns, 0, [], k);
            DriversToken(a.bearer, ran.told) == ran.account.bearer <==> !LastChangeUntold(a, turns, 0, k)
  {
    TheDriverHoldsTheBearer(a, turns, k);
    if LastChangeUntold(a, turns, 0, k) {
      MissesFrom(a, turns, 0, [], a.bearer, k);
    }
  }

  lemma {:induction false} MissesFrom(a: Account, turns: seq<Turn>, i: nat, told: seq<Option<string>>, initial: Option<string>,
                                      k: Keychain)
    requires Reaches(turns, i) && DriversToken(initial, told) == Awake(a, turns, i, k).bearer
    requires LastChangeUntold(a, turns, i, k)
    requires forall n | 0 <= n < |turns| :: !MovesAsleep(a, turns, n, k)
    ensures var ran := Runs(Awake(a, turns, i, k), turns, i, told, k);
            DriversToken(initial, ran.told) != ran.account.bearer
    decreases |turns| - i
  {
    if i < |turns| && !turns[i].cancelledAfterLook && !turns[i].cancelledAsleep {
      var here, b := Awake(a, turns, i, k), LookedAt(a, turns, i, k);
      var told' := if b.bearer != here.bearer then told + [b.bearer] else told;
      assert !MovesAsleep(a, turns, i, k);
      MissesFrom(a, turns, i + 1, told', initial, k);
    }
  }

  /** With sign-outs in the sleeps it is not enough: a sign-out asleep is not told,
      for the next look sees the bearer already gone. */
  lemma {:induction false} ASignOutAsleepIsNotTold(a: Account, turn: Turn, k: Keychain)
    requires a.credentials.Some? && !a.credentials.value.NeedsRenewal(turn.now) && a.bearer.Some?
    requires turn.asleep == [SignOutPressed] && !turn.cancelledAfterLook && !turn.cancelledAsleep
    ensures var ran := Runs(a, [turn, turn], 0, [], k);
            ran.told == [] && ran.account.bearer == None && DriversToken(a.bearer, ran.told) == a.bearer
  {
    var turns := [turn, turn];
    var out := SignedOutOf(a, k.clear);
    assert Interrupted(a, turn.asleep[0], k.load, k.clear) == out;
    assert AllInterrupted(out, [], k.load, k.clear) == out;
    assert turn.asleep[1..] == [];
    assert AllInterrupted(a, turn.asleep, k.load, k.clear) == out;
    var again := SignedOutOf(out, k.clear);
    assert Looked(out, turn, k.load, k.save, k.clear) == out;
    assert Interrupted(out, turn.asleep[0], k.load, k.clear) == again;
    assert AllInterrupted(again, [], k.load, k.clear) == again;
    assert AllInterrupted(out, turn.asleep, k.load, k.clear) == again;
    assert Runs(again, turns, 2, [], k) == Ran(again, []);
    assert Runs(out, turns, 1, [], k) == Ran(again, []);
  }
}
