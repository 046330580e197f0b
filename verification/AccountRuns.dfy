/** The account session as a protocol: any number of logins and renewals in
    flight, cut at their awaits, interleaved in any order with sign-outs, reads
    of the store and dismissals, under any answers from the Keychain and the
    issuer (apps/apple/Sunrise/Identity/AccountModel.swift:199-474). */
module AccountRuns {
  import opened Wrappers
  import opened KeychainErrors
  import opened AccountSession

  /** A suspended operation, and how many sessions had been ended when it captured its generation. */
  datatype Suspended = Suspended(frame: Frame, since: nat)

  /** The account, what is in flight by the number it was given, and what has
      happened so far: sessions ended, what the store held at the last refused
      sign-out, refresh tokens the issuer has refused, and every token seen. */
  datatype World = World(
    account: Account,
    flights: map<nat, Suspended>,
    next: nat,
    ended: nat,
    keptAtRefusal: Option<Credentials>,
    refused: set<string>,
    seen: set<string>)

  datatype Step =
    | SignIn(load: Answer, configured: bool)
    | Begin(id: nat, failure: Option<Trouble>)
    | Complete(id: nat, login: Result<Credentials, Trouble>, save: Answer)
    | Refresh(now: nat, clear: Removal)
    | Renew(id: nat, renewal: Result<Credentials, RenewalError>, save: Answer, clear: Removal)
    | SignOut(clear: Removal)
    | Restore(load: Answer)
    | RestoreIfUnread(load: Answer)
    | DismissMessage
    | DismissRetry

  predicate Resumes(s: Step, id: nat) {
    (s.Begin? || s.Complete? || s.Renew?) && s.id == id
  }

  predicate Enabled(w: World, s: Step) {
    match s
    case Begin(id, _) => id in w.flights && w.flights[id].frame.Beginning?
    case Complete(id, _, _) => id in w.flights && w.flights[id].frame.InBrowser?
    case Renew(id, _, _, _) => id in w.flights && w.flights[id].frame.Renewing?
    case _ => true
  }

  /** What a step does to the account and which frame, if any, it leaves parked. */
  function Progresses(w: World, s: Step): Progress
    requires Enabled(w, s)
  {
    var a := w.account;
    match s
    case SignIn(load, configured) => SignInStarted(a, load, configured)
    case Begin(id, failure) => Begun(a, w.flights[id].frame, failure)
    case Complete(id, login, save) => Over(Completed(a, w.flights[id].frame, login, save))
    case Refresh(now, clear) => RefreshStarted(a, now, clear)
    case Renew(id, renewal, save, clear) => Over(Renewed(a, w.flights[id].frame, renewal, save, clear))
    case SignOut(clear) => Over(SignedOutOf(a, clear))
    case Restore(load) => Over(Restored(a, load))
    case RestoreIfUnread(load) => Over(RestoredIfUnread(a, load))
    case DismissMessage => Over(MessageDismissed(a))
    case DismissRetry => Over(RetryDismissed(a))
  }

  function After(w: World, s: Step): Account
    requires Enabled(w, s)
  {
    Progresses(w, s).account
  }

  function FlightsAfter(w: World, s: Step): map<nat, Suspended>
    requires Enabled(w, s)
  {
    var p := Progresses(w, s);
    var others := if s.Begin? || s.Complete? || s.Renew? then w.flights - {s.id} else w.flights;
    if p.Over? then others
    else if s.Begin? then others[s.id := Suspended(p.frame, w.flights[s.id].since)]
    else others[w.next := Suspended(p.frame, w.ended)]
  }

  function TokenOf(c: Option<Credentials>): set<string> {
    if c.Some? && c.value.refresh.Some? then {c.value.refresh.value} else {}
  }

  /** What the issuer mints in a step. */
  function Minted(s: Step): Option<Credentials> {
    match s
    case Complete(_, Ok(c), _) => Some(c)
    case Renew(_, Ok(c), _, _) => Some(c)
    case _ => None
  }

  predicate EndsASession(w: World, s: Step)
    requires Enabled(w, s)
  {
    After(w, s).generation != w.account.generation
  }

  predicate RefusesASignOut(w: World, s: Step)
    requires Enabled(w, s)
  {
    EndsASession(w, s) && After(w, s).residue.Unread?
  }

  function Next(w: World, s: Step): World
    requires Enabled(w, s)
  {
    World(
      After(w, s),
      FlightsAfter(w, s),
      w.next + 1,
      if EndsASession(w, s) then w.ended + 1 else w.ended,
      if RefusesASignOut(w, s) then After(w, s).stored else w.keptAtRefusal,
      if s.Renew? && s.renewal == Err(LoginRefused) then w.refused + {w.flights[s.id].frame.token} else w.refused,
      w.seen + TokenOf(Minted(s)))
  }

  predicate CanRun(w: World, steps: seq<Step>)
    decreases |steps|
  {
    steps == [] || (Enabled(w, steps[0]) && CanRun(Next(w, steps[0]), steps[1..]))
  }

  function Run(w: World, steps: seq<Step>): World
    requires CanRun(w, steps)
    decreases |steps|
  {
    if steps == [] then w else Run(Next(w, steps[0]), steps[1..])
  }

  /** A process that has just made its model over a store. */
  predicate Launched(w: World) {
    && w.account == Account(SignedOut, None, Gone, None, false, 0, 0, w.account.stored)
    && w.flights == map[] && w.next == 0 && w.ended == 0 && w.refused == {}
    && TokenOf(w.account.stored) <= w.seen
  }

  // ---- What every run keeps ----

  /** The generation counts the sessions ended, modulo what it can hold. */
  ghost predicate Counted(w: World) {
    && w.account.generation == w.ended % GENERATIONS
    && forall id | id in w.flights ::
         && id < w.next
         && w.flights[id].since <= w.ended
         && w.flights[id].frame.generation == w.flights[id].since % GENERATIONS
  }

  /** What is shown, presented and stored is one session. */
  ghost predicate Coherent(a: Account) {
    && (a.credentials.Some? ==> a.stored == a.credentials)
    && (a.bearer.Some? ==> a.credentials.Some? && a.bearer == Some(a.credentials.value.access))
    && (a.state.SignedIn? ==> a.bearer.Some? && a.state.expiresAt == a.credentials.value.expiresAt)
  }

  /** While a refusal stands, the store still holds what that refused sign-out left in it. */
  ghost predicate RefusalIsTrue(w: World) {
    !w.account.residue.Gone? ==> w.account.stored == w.keptAtRefusal
  }

  ghost predicate Sound(w: World) {
    Counted(w) && Coherent(w.account) && RefusalIsTrue(w)
  }

  lemma {:induction false} NextCounts(w: World, s: Step)
    requires Counted(w) && Enabled(w, s)
    ensures Counted(Next(w, s))
    ensures w.ended <= Next(w, s).ended <= w.ended + 1
    ensures EndsASession(w, s) <==> Next(w, s).ended == w.ended + 1
  {
    var p := Progresses(w, s);
    if EndsASession(w, s) {
      assert p.account.generation == (w.account.generation + 1) % GENERATIONS;
    }
    assert p.Parked? && !s.Begin? ==> p.frame.generation == w.account.generation && p.account.generation == w.account.generation;
  }

  lemma NextIsCoherent(w: World, s: Step)
    requires Coherent(w.account) && Enabled(w, s)
    ensures Coherent(After(w, s))
  {}

  lemma NextKeepsTheRefusalTrue(w: World, s: Step)
    requires RefusalIsTrue(w) && Enabled(w, s)
    ensures RefusalIsTrue(Next(w, s))
  {}

  lemma {:induction false} NextIsSound(w: World, s: Step)
    requires Sound(w) && Enabled(w, s)
    ensures Sound(Next(w, s)) && w.ended <= Next(w, s).ended
  {
    NextCounts(w, s);
    NextIsCoherent(w, s);
    NextKeepsTheRefusalTrue(w, s);
  }

  lemma {:induction false} EveryRunIsSound(w: World, steps: seq<Step>)
    requires Sound(w) && CanRun(w, steps)
    ensures Sound(Run(w, steps)) && w.ended <= Run(w, steps).ended
    decreases |steps|
  {
    if steps != [] {
      NextIsSound(w, steps[0]);
      EveryRunIsSound(Next(w, steps[0]), steps[1..]);
    }
  }
}
