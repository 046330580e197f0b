/** What the account session promises over every run
    (apps/apple/Sunrise/Identity/AccountModel.swift:100-136, 268-424). */
module AccountSafety {
  import opened Wrappers
  import opened KeychainErrors
  import opened AccountSession
  import opened AccountRuns

  // ---- A late result ----

  lemma {:induction false} CapturesStand(w: World, steps: seq<Step>, id: nat)
    requires Counted(w) && CanRun(w, steps) && id in w.flights && id in Run(w, steps).flights
    ensures Run(w, steps).flights[id].since == w.flights[id].since
    decreases |steps|
  {
    if steps != [] {
      var v := Next(w, steps[0]);
      NextCounts(w, steps[0]);
      if id !in v.flights {
        GoneForGood(v, steps[1..], id);
      }
      CapturesStand(v, steps[1..], id);
    }
  }

  lemma {:induction false} GoneForGood(w: World, steps: seq<Step>, id: nat)
    requires Counted(w) && CanRun(w, steps) && id < w.next && id !in w.flights
    ensures id !in Run(w, steps).flights
    decreases |steps|
  {
    if steps != [] {
      NextCounts(w, steps[0]);
      GoneForGood(Next(w, steps[0]), steps[1..], id);
    }
  }

  /** Two captures of a wrapping generation agree exactly when whole turns of it lie between them. */
  lemma SameGenerationIff(since: nat, ended: nat)
    requires since <= ended
    ensures since % GENERATIONS == ended % GENERATIONS <==> (ended - since) % GENERATIONS == 0
  {}

  /** A login or renewal in flight at `w`, any run from there with at least one
      sign-out in it, and then its result: nothing at all is written, whatever
      the result is, and whether those sign-outs were refused or not. */
  lemma {:induction false} LateResultWritesNothing(w: World, steps: seq<Step>, id: nat, s: Step)
    requires Sound(w) && CanRun(w, steps) && id in w.flights
    requires Enabled(Run(w, steps), s) && Resumes(s, id)
    requires w.ended < Run(w, steps).ended < w.flights[id].since + GENERATIONS
    ensures After(Run(w, steps), s) == Run(w, steps).account
    ensures id !in Next(Run(w, steps), s).flights
  {
    EveryRunIsSound(w, steps);
    CapturesStand(w, steps, id);
    SameGenerationIff(w.flights[id].since, Run(w, steps).ended);
  }

  /** Exactly: a resumed operation is discarded when the sessions ended since it
      began are not a whole number of turns of the generation, and otherwise a
      login's token is saved and presented. */
  lemma {:induction false} LoginIsAdoptedIff(w: World, id: nat, c: Credentials)
    requires Sound(w) && id in w.flights && w.flights[id].frame.InBrowser?
    requires w.account.credentials != Some(c)
    ensures var a := After(w, Complete(id, Ok(c), Done));
            && (a.credentials == Some(c) <==> (w.ended - w.flights[id].since) % GENERATIONS == 0)
            && (a != w.account ==> a.stored == Some(c) && a.bearer == Some(c.access) && a.residue.Gone?)
  {
    SameGenerationIff(w.flights[id].since, w.ended);
  }

  // ---- After a sign-out ----

  /** Nobody is signed in, and nothing in flight can change that. */
  ghost predicate LoggedOut(w: World, emptied: bool) {
    && w.account.bearer.None? && w.account.credentials.None?
    && (forall id | id in w.flights :: w.flights[id].since < w.ended)
    && (w.account.residue.Gone? || emptied ==> w.account.stored.None?)
  }

  /** A step that asks for no session; re-reading the store asks for none once it is empty. */
  predicate AsksForNoSession(s: Step, emptied: bool) {
    !s.SignIn? && (s.Restore? ==> emptied)
  }

  lemma {:induction false} NextStaysLoggedOut(w: World, s: Step, emptied: bool)
    requires Counted(w) && LoggedOut(w, emptied) && Enabled(w, s) && AsksForNoSession(s, emptied)
    requires Next(w, s).ended < GENERATIONS
    ensures LoggedOut(Next(w, s), emptied)
    ensures After(w, s).stored.None? || After(w, s).stored == w.account.stored
    ensures After(w, s).tabs == w.account.tabs
  {
    NextCounts(w, s);
  }

  lemma {:induction false} StaysLoggedOut(w: World, steps: seq<Step>, emptied: bool)
    requires Sound(w) && LoggedOut(w, emptied) && CanRun(w, steps)
    requires forall s | s in steps :: AsksForNoSession(s, emptied)
    requires Run(w, steps).ended < GENERATIONS
    ensures LoggedOut(Run(w, steps), emptied)
    ensures Run(w, steps).account.stored.None? || Run(w, steps).account.stored == w.account.stored
    ensures Run(w, steps).account.tabs == w.account.tabs
    decreases |steps|
  {
    if steps != [] {
      assert steps[0] in steps;
      NextIsSound(w, steps[0]);
      EveryRunIsSound(Next(w, steps[0]), steps[1..]);
      NextStaysLoggedOut(w, steps[0], emptied);
      StaysLoggedOut(Next(w, steps[0]), steps[1..], emptied);
    }
  }

  /** After a sign-out no bearer comes back, no token is written and no browser
      opens, whatever was in flight, until someone signs in again, or, where the
      Keychain refused the removal, asks for a fresh read of the store. */
  lemma {:induction false} SignedOutStaysOut(w: World, clear: Removal, steps: seq<Step>)
    requires Sound(w) && CanRun(Next(w, SignOut(clear)), steps)
    requires forall s | s in steps :: AsksForNoSession(s, clear.Removed?)
    requires Run(Next(w, SignOut(clear)), steps).ended < GENERATIONS
    ensures var a := Run(Next(w, SignOut(clear)), steps).account;
            && a.bearer.None? && a.credentials.None? && !a.state.SignedIn? && !a.state.AwaitingBrowser?
            && (a.stored.None? || (clear.Declined? && a.stored == w.account.stored))
            && a.tabs == w.account.tabs
  {
    var v := Next(w, SignOut(clear));
    NextIsSound(w, SignOut(clear));
    StaysLoggedOut(v, steps, clear.Removed?);
    EveryRunIsSound(v, steps);
    NoBrowserInFront(v, steps, clear.Removed?);
  }

  lemma {:induction false} NoBrowserInFront(w: World, steps: seq<Step>, emptied: bool)
    requires Sound(w) && LoggedOut(w, emptied) && CanRun(w, steps) && !w.account.state.AwaitingBrowser?
    requires forall s | s in steps :: AsksForNoSession(s, emptied)
    requires Run(w, steps).ended < GENERATIONS
    ensures !Run(w, steps).account.state.AwaitingBrowser?
    decreases |steps|
  {
    if steps != [] {
      assert steps[0] in steps;
      NextIsSound(w, steps[0]);
      EveryRunIsSound(Next(w, steps[0]), steps[1..]);
      NextStaysLoggedOut(w, steps[0], emptied);
      NoBrowserInFront(Next(w, steps[0]), steps[1..], emptied);
    }
  }

  // ---- A refused sign-out ----

  /** Only a removal that worked or a token saved over it ends a refusal. */
  lemma RefusalEndsOnlyByReplacing(w: World, s: Step)
    requires Enabled(w, s) && !w.account.residue.Gone? && After(w, s).residue.Gone?
    ensures After(w, s).stored.None?
         || (Minted(s).Some? && After(w, s).stored == Minted(s) && After(w, s).credentials == Minted(s))
  {}

  /** From a launch, whenever a refusal stands, what is stored is what the last
      refused removal left there; and nothing presented is not also stored. */
  lemma {:induction false} RefusalStandsWhileTheCredentialDoes(w: World, steps: seq<Step>)
    requires Launched(w) && CanRun(w, steps)
    ensures var v := Run(w, steps);
            && (!v.account.residue.Gone? ==> v.account.stored == v.keptAtRefusal)
            && (v.account.bearer.Some? ==>
                  v.account.stored.Some? && v.account.bearer == Some(v.account.stored.value.access))
            && (v.account.state.SignedIn? ==>
                  v.account.stored.Some? && v.account.state.expiresAt == v.account.stored.value.expiresAt)
  {
    EveryRunIsSound(w, steps);
  }

  function Count(b: bool): nat {
    if b then 1 else 0
  }

  /** While a refusal stands, a settled screen offers exactly one of the message,
      the retry and the bare Sign out; a signed-in screen offers none of them,
      having its own; a browser in front offers the retry unless it was dismissed. */
  lemma OneWayOutIsOffered(a: Account)
    requires !a.residue.Gone?
    ensures a.state.SignedOut? || a.state.Failed? ==>
              Count(DisclosureOf(a).Incomplete?) + Count(DisclosureOf(a).Retry?) + Count(OffersBareSignOut(a)) == 1
    ensures a.state.SignedIn? ==> DisclosureOf(a).Silent? && !OffersBareSignOut(a)
    ensures a.state.AwaitingBrowser? ==> !OffersBareSignOut(a) && (DisclosureOf(a).Retry? <==> !a.residue.Retired?)
  {}

  // ---- A refresh token the issuer has refused ----

  function Held(w: World): set<string> {
    TokenOf(w.account.credentials) + TokenOf(w.account.stored)
  }

  /** The issuer has refused it, or a renewal whose session has ended is carrying it. */
  ghost predicate Spent(w: World, t: string) {
    t in w.refused
    || exists id :: id in w.flights && w.flights[id].frame.Renewing? && w.flights[id].since < w.ended
                    && w.flights[id].frame.token == t
  }

  /** The model or the store holds it, or a renewal of this session is carrying it. */
  ghost predicate Live(w: World, t: string) {
    t in Held(w)
    || exists id :: id in w.flights && w.flights[id].frame.Renewing? && w.flights[id].since == w.ended
                    && w.flights[id].frame.token == t
  }

  ghost predicate Separate(w: World) {
    && (forall t :: Spent(w, t) ==> !Live(w, t))
    && (forall t :: Spent(w, t) || Live(w, t) ==> t in w.seen)
  }

  /** The Keychain lets go whenever it is asked, the issuer mints a new refresh
      token for a login and the same or a new one for a renewal, and no renewal
      of this session is refused while a login is in the browser. */
  predicate Fair(w: World, s: Step)
    requires Enabled(w, s)
  {
    match s
    case Complete(_, Ok(c), _) => TokenOf(Some(c)) !! w.seen
    case Refresh(_, clear) => clear.Removed?
    case SignOut(clear) => clear.Removed?
    case Renew(id, outcome, _, clear) =>
      && clear.Removed?
      && (outcome.Ok? ==> TokenOf(Some(outcome.value)) - {w.flights[id].frame.token} !! w.seen)
      && !(outcome == Err(LoginRefused) && w.account.state.AwaitingBrowser? && w.flights[id].since == w.ended)
    case _ => true
  }

  predicate FairRun(w: World, steps: seq<Step>)
    requires CanRun(w, steps)
    decreases |steps|
  {
    steps == [] || (Fair(w, steps[0]) && FairRun(Next(w, steps[0]), steps[1..]))
  }

  lemma {:induction false} NextKeepsTokensSeparate(w: World, s: Step)
    requires Sound(w) && Separate(w) && Enabled(w, s) && Fair(w, s) && Next(w, s).ended < GENERATIONS
    ensures Separate(Next(w, s))
  {
    NextCounts(w, s);
    var v := Next(w, s);
    forall t | Live(v, t)
      ensures Live(w, t) || (t in TokenOf(Minted(s)) && t !in w.seen)
    {
      NewlyLive(w, s, t);
    }
    forall t | Spent(v, t)
      ensures Spent(w, t) || (Live(w, t) && v.ended > w.ended)
    {
      NewlySpent(w, s, t);
    }
    if v.ended > w.ended {
      assert forall t :: !Live(v, t);
    }
  }

  lemma {:induction false} NewlyLive(w: World, s: Step, t: string)
    requires Sound(w) && Separate(w) && Enabled(w, s) && Fair(w, s) && Next(w, s).ended < GENERATIONS
    requires Live(Next(w, s), t)
    ensures Live(w, t) || (t in TokenOf(Minted(s)) && t !in w.seen)
  {
    NextCounts(w, s);
    if t in Held(Next(w, s)) {
      NewlyHeld(w, s, t);
    } else {
      var id :| id in Next(w, s).flights && Next(w, s).flights[id].frame.Renewing?
                && Next(w, s).flights[id].since == Next(w, s).ended && Next(w, s).flights[id].frame.token == t;
      NewlyCarried(w, s, id);
    }
  }

  lemma {:induction false} NewlyHeld(w: World, s: Step, t: string)
    requires Sound(w) && Enabled(w, s) && Fair(w, s) && Next(w, s).ended < GENERATIONS
    requires t in Held(Next(w, s))
    ensures Live(w, t) || (t in TokenOf(Minted(s)) && t !in w.seen)
  {
    if t !in Held(w) {
      OnlyMintedIsNew(w, s, t);
    }
  }

  lemma {:induction false} OnlyMintedIsNew(w: World, s: Step, t: string)
    requires Counted(w) && Enabled(w, s) && t in Held(Next(w, s)) && t !in Held(w)
    ensures t in TokenOf(Minted(s)) && After(w, s) != w.account
  {}

  /** A renewal in flight after a step was in flight before it, or has just taken the held token. */
  lemma {:induction false} NewlyCarried(w: World, s: Step, id: nat)
    requires Counted(w) && Enabled(w, s)
    requires id in Next(w, s).flights && Next(w, s).flights[id].frame.Renewing?
    ensures (id in w.flights && w.flights[id] == Next(w, s).flights[id])
         || Next(w, s).flights[id].frame.token in Held(w)
  {}

  lemma {:induction false} NewlySpent(w: World, s: Step, t: string)
    requires Sound(w) && Separate(w) && Enabled(w, s) && Fair(w, s) && Next(w, s).ended < GENERATIONS
    requires Spent(Next(w, s), t)
    ensures Spent(w, t) || (Live(w, t) && Next(w, s).ended > w.ended)
  {
    NextCounts(w, s);
  }

  lemma {:induction false} FairRunsKeepTokensSeparate(w: World, steps: seq<Step>)
    requires Sound(w) && Separate(w) && CanRun(w, steps) && FairRun(w, steps) && Run(w, steps).ended < GENERATIONS
    ensures Separate(Run(w, steps))
    decreases |steps|
  {
    if steps != [] {
      NextIsSound(w, steps[0]);
      EveryRunIsSound(Next(w, steps[0]), steps[1..]);
      NextKeepsTokensSeparate(w, steps[0]);
      FairRunsKeepTokensSeparate(Next(w, steps[0]), steps[1..]);
    }
  }

  /** From a launch, over every such run, a renewal never offers the issuer a
      refresh token the issuer has already refused. */
  lemma {:induction false} ARefusedTokenIsNotOfferedAgain(w: World, steps: seq<Step>, now: nat, clear: Removal)
    requires Launched(w) && CanRun(w, steps) && FairRun(w, steps) && Run(w, steps).ended < GENERATIONS
    ensures var p := RefreshStarted(Run(w, steps).account, now, clear);
            p.Parked? && p.frame.Renewing? ==> p.frame.token !in Run(w, steps).refused
  {
    FairRunsKeepTokensSeparate(w, steps);
    var v := Run(w, steps);
    var p := RefreshStarted(v.account, now, clear);
    if p.Parked? && p.frame.Renewing? {
      assert Live(v, p.frame.token);
    }
  }

  /** The exceptions, exactly: a held token refused in this session is still held
      afterwards if and only if a login was in the browser, or the Keychain
      declined to remove it and left it. */
  lemma {:induction false} ARefusedTokenIsKeptIff(w: World, id: nat, save: Answer, clear: Removal)
    requires Sound(w) && id in w.flights && w.flights[id].frame.Renewing? && w.flights[id].since == w.ended
    requires w.flights[id].frame.token in Held(w)
    ensures w.flights[id].frame.token in Held(Next(w, Renew(id, Err(LoginRefused), save, clear)))
        <==> || w.account.state.AwaitingBrowser?
             || (clear.Declined? && clear.left && w.flights[id].frame.token in TokenOf(w.account.stored))
  {}

  /** A process launched over a store that holds this. */
  function LaunchedOver(held: Credentials): World {
    World(Account(SignedOut, None, Gone, None, false, 0, 0, Some(held)), map[], 0, 0, None, {}, TokenOf(Some(held)))
  }

  /** And the issuer is then asked again: a run from a launch in which a renewal
      is refused with a login in the browser, and the next renewal offers the same token. */
  lemma {:induction false} ARefusedTokenIsOfferedAgain(held: Credentials) returns (steps: seq<Step>)
    requires held.refresh.Some? && held.NeedsRenewal(0)
    ensures var w := LaunchedOver(held);
            && Launched(w) && CanRun(w, steps) && held.refresh.value in Run(w, steps).refused
            && RefreshStarted(Run(w, steps).account, 0, Removed).Parked?
            && RefreshStarted(Run(w, steps).account, 0, Removed).frame.token == held.refresh.value
  {
    var w := LaunchedOver(held);
    steps := [Restore(Done), Refresh(0, Removed), SignIn(Done, true), Begin(2, None), Renew(1, Err(LoginRefused), Done, Removed)];
    var w1 := Next(w, steps[0]);
    var w2 := Next(w1, steps[1]);
    assert w2.flights == map[1 := Suspended(Renewing(0, held, held.refresh.value, 0), 0)];
    var w3 := Next(w2, steps[2]);
    assert w3.flights[1] == w2.flights[1] && w3.flights[2] == Suspended(Beginning(0), 0);
    var w4 := Next(w3, steps[3]);
    assert w4.flights[1] == w2.flights[1] && w4.account.state.AwaitingBrowser?;
    var w5 := Next(w4, steps[4]);
    RunOfFive(w, steps, w1, w2, w3, w4, w5);
  }

  // ---- A login that finished while a renewal was out ----

  /** A refusal of the old session's token touches nothing if and only if a
      session has ended since or a login is in the browser: a login that has
      already finished does not shield the session it made. */
  lemma {:induction false} ARefusedRenewalIsHarmlessIff(w: World, id: nat, save: Answer, clear: Removal)
    requires Sound(w) && id in w.flights && w.flights[id].frame.Renewing?
    ensures After(w, Renew(id, Err(LoginRefused), save, clear)) == w.account
        <==> (w.ended - w.flights[id].since) % GENERATIONS != 0 || w.account.state.AwaitingBrowser?
  {
    SameGenerationIff(w.flights[id].since, w.ended);
  }

  /** One run in which it happens: the renewal leaves, a login replaces the
      session, and the refusal of the replaced token ends the new one. */
  lemma {:induction false} ARefusedRenewalCanEndALaterLogin(held: Credentials, later: Credentials)
    returns (steps: seq<Step>)
    requires held.refresh.Some? && held.NeedsRenewal(0)
    ensures var w := LaunchedOver(held);
            && Launched(w) && CanRun(w, steps)
            && Run(w, steps).account.credentials == Some(later) && Run(w, steps).account.stored == Some(later)
            && Enabled(Run(w, steps), Renew(1, Err(LoginRefused), Done, Removed))
            && After(Run(w, steps), Renew(1, Err(LoginRefused), Done, Removed)).stored == None
            && After(Run(w, steps), Renew(1, Err(LoginRefused), Done, Removed)).state == Failed(RefusedByIssuer)
  {
    var w := LaunchedOver(held);
    steps := [Restore(Done), Refresh(0, Removed), SignIn(Done, true), Begin(2, None), Complete(2, Ok(later), Done)];
    var w1 := Next(w, steps[0]);
    var w2 := Next(w1, steps[1]);
    assert w2.flights == map[1 := Suspended(Renewing(0, held, held.refresh.value, 0), 0)];
    var w3 := Next(w2, steps[2]);
    assert w3.flights[2] == Suspended(Beginning(0), 0);
    var w4 := Next(w3, steps[3]);
    var w5 := Next(w4, steps[4]);
    RunOfFive(w, steps, w1, w2, w3, w4, w5);
  }

  lemma RunOfFour(w: World, steps: seq<Step>, w1: World, w2: World, w3: World, w4: World)
    requires |steps| == 4
    requires Enabled(w, steps[0]) && w1 == Next(w, steps[0])
    requires Enabled(w1, steps[1]) && w2 == Next(w1, steps[1])
    requires Enabled(w2, steps[2]) && w3 == Next(w2, steps[2])
    requires Enabled(w3, steps[3]) && w4 == Next(w3, steps[3])
    ensures CanRun(w, steps) && Run(w, steps) == w4
  {
    var a, b, c, d := steps[1..], steps[2..], steps[3..], steps[4..];
    assert a[1..] == b && b[1..] == c && c[1..] == d;
    assert CanRun(w4, d) && Run(w4, d) == w4;
    assert CanRun(w3, c) && Run(w3, c) == w4;
    assert CanRun(w2, b) && Run(w2, b) == w4;
    assert CanRun(w1, a) && Run(w1, a) == w4;
  }

  lemma RunOfFive(w: World, steps: seq<Step>, w1: World, w2: World, w3: World, w4: World, w5: World)
    requires |steps| == 5
    requires Enabled(w, steps[0]) && w1 == Next(w, steps[0])
    requires Enabled(w1, steps[1]) && w2 == Next(w1, steps[1])
    requires Enabled(w2, steps[2]) && w3 == Next(w2, steps[2])
    requires Enabled(w3, steps[3]) && w4 == Next(w3, steps[3])
    requires Enabled(w4, steps[4]) && w5 == Next(w4, steps[4])
    ensures CanRun(w, steps) && Run(w, steps) == w5
  {
    var rest := steps[1..];
    RunOfFour(w1, rest, w2, w3, w4, w5);
  }

  // ---- A copy nobody has read ----

  /** The answer of the store, in a step that asks it for what it holds. */
  function Asked(w: World, s: Step): Option<Answer> {
    match s
    case SignIn(load, _) => if w.account.refusedToAnswer then Some(load) else None
    case Restore(load) => Some(load)
    case RestoreIfUnread(load) =>
      if w.account.state.SignedOut? && w.account.credentials.None? && w.account.residue.Gone? then Some(load) else None
    case _ => None
  }

  /** The last answer the store gave in a run, if it was asked at all. */
  function LastAsked(w: World, steps: seq<Step>): Option<Answer>
    requires CanRun(w, steps)
    decreases |steps|
  {
    if steps == [] then None
    else
      var later := LastAsked(Next(w, steps[0]), steps[1..]);
      if later.Some? then later else Asked(w, steps[0])
  }

  /** A refusal that may have left a copy nobody has read. */
  predicate LeftUnread(load: Option<Answer>) {
    load.Some? && load.value.Refused? && MayHaveLeftACopyUnread(load.value.why)
  }

  lemma {:induction false} TheLastAnswerDecides(w: World, steps: seq<Step>)
    requires CanRun(w, steps)
    ensures Run(w, steps).account.refusedToAnswer
        <==> if LastAsked(w, steps).Some? then LeftUnread(LastAsked(w, steps)) else w.account.refusedToAnswer
    decreases |steps|
  {
    if steps != [] {
      TheLastAnswerDecides(Next(w, steps[0]), steps[1..]);
    }
  }

  /** A login starts only beside a store that has answered, and it saves its token
      beside a copy nobody has read exactly when it is adopted at all and the last
      read since, whoever made it, was refused in a way that may have left one. */
  lemma {:induction false} ALoginSavesBesideAnUnreadCopyIff(w: World, load: Answer, configured: bool, steps: seq<Step>, c: Credentials)
    requires Sound(w) && Progresses(w, SignIn(load, configured)).Parked?
    requires var v := Next(w, SignIn(load, configured));
             && CanRun(v, steps) && Enabled(Run(v, steps), Complete(w.next, Ok(c), Done))
             && Run(v, steps).account.credentials != Some(c)
    ensures var v := Next(w, SignIn(load, configured));
            var end := Run(v, steps);
            var a := After(end, Complete(w.next, Ok(c), Done));
            && !v.account.refusedToAnswer
            && (a.credentials == Some(c) && a.refusedToAnswer
                <==> (end.ended - w.ended) % GENERATIONS == 0 && LeftUnread(LastAsked(v, steps)))
  {
    var s := SignIn(load, configured);
    var v := Next(w, s);
    NextIsSound(w, s);
    EveryRunIsSound(v, steps);
    assert v.flights[w.next].since == w.ended;
    CapturesStand(v, steps, w.next);
    LoginIsAdoptedIff(Run(v, steps), w.next, c);
    TheLastAnswerDecides(v, steps);
  }

  /** One run from a launch in which it happens: a first look is refused while the login is starting. */
  lemma {:induction false} ALoginCanSaveBesideAnUnreadCopy(w: World, c: Credentials, why: Trouble) returns (steps: seq<Step>)
    requires Launched(w) && MayHaveLeftACopyUnread(why)
    ensures |steps| == 4 && steps[1] == RestoreIfUnread(Refused(why)) && CanRun(w, steps)
    ensures Run(w, steps).account.refusedToAnswer && Run(w, steps).account.stored == Some(c)
  {
    steps := [SignIn(Done, true), RestoreIfUnread(Refused(why)), Begin(0, None), Complete(0, Ok(c), Done)];
    var w1 := Next(w, steps[0]);
    assert w1.flights[0] == Suspended(Beginning(0), 0);
    var w2 := Next(w1, steps[1]);
    var w3 := Next(w2, steps[2]);
    RunOfFour(w, steps, w1, w2, w3, Next(w3, steps[3]));
  }
}
