/** One account session, one atomic stretch of the main actor at a time
    (apps/apple/Sunrise/Identity/AccountModel.swift). A login and a renewal
    suspend, so each is cut at its awaits: what it carries across one is a
    `Frame`, and each stretch is a function from the account before it to the
    account after it. What the Keychain and the issuer answer is a parameter. */
module AccountSession {
  import opened Wrappers
  import opened KeychainErrors

  datatype Credentials = Credentials(access: string, refresh: Option<string>, expiresAt: nat, renewAt: nat) {
    predicate NeedsRenewal(now: nat) { now >= renewAt }

    predicate HasExpired(now: nat) { now >= expiresAt }
  }

  /** Everything a throw can carry here. The text the screen shows is a function of it. */
  datatype Trouble =
    | NotConfigured
    | RefusedByIssuer
    | Keychain(error: KeychainError)
    | Foreign(reason: string)

  datatype State =
    | SignedOut
    | AwaitingBrowser
    | SignedIn(expiresAt: nat)
    | Failed(why: Trouble)

  /** What a refused sign-out has left behind, and how far the user has got with it. */
  datatype Residue = Gone | Unread(why: Trouble) | Acknowledged | Retired

  /** The session generation is a `UInt64` advanced by a wrapping add. */
  const GENERATIONS: nat := 0x1_0000_0000_0000_0000

  /** The model's fields, the credential the store holds, and how many browser tabs were opened. */
  datatype Account = Account(
    state: State,
    bearer: Option<string>,
    residue: Residue,
    credentials: Option<Credentials>,
    refusedToAnswer: bool,
    generation: nat,
    tabs: nat,
    stored: Option<Credentials>)

  /** Whether a read of the store, or a save, went through. A refused one leaves the store alone. */
  datatype Answer = Done | Refused(why: Trouble)

  /** How a removal went. It deletes two copies, and refused one of them it may
      or may not leave the store with a token to answer. */
  datatype Removal = Removed | Declined(why: Trouble, left: bool)

  /** What a suspended operation holds on to. */
  datatype Frame =
    | Beginning(generation: nat)
    | InBrowser(generation: nat)
    | Renewing(generation: nat, current: Credentials, token: string, now: nat)

  /** How a stretch ends: the operation is over, or it is parked at an await. */
  datatype Progress = Over(account: Account) | Parked(account: Account, frame: Frame)

  datatype RenewalError = LoginRefused | Unreachable(why: Trouble)

  function Published(a: Account): Account {
    match a.credentials
    case None => a.(bearer := None, state := SignedOut)
    case Some(c) => a.(bearer := Some(c.access), state := SignedIn(c.expiresAt))
  }

  /** Only `migrationUnverified` says that every copy has been read. */
  predicate MayHaveLeftACopyUnread(why: Trouble) {
    why != Keychain(MigrationUnverified)
  }

  function Restored(a: Account, load: Answer): Account {
    match load
    case Done => Published(a.(credentials := a.stored, refusedToAnswer := false))
    case Refused(why) =>
      a.(credentials := None, bearer := None, refusedToAnswer := MayHaveLeftACopyUnread(why), state := Failed(why))
  }

  function RestoredIfUnread(a: Account, load: Answer): Account {
    if a.state.SignedOut? && a.credentials.None? && a.residue.Gone? then Restored(a, load) else a
  }

  function SignedOutOf(a: Account, clear: Removal): Account {
    var residue := if clear.Removed? then Gone else Unread(clear.why);
    var stored := if clear.Declined? && clear.left then a.stored else None;
    a.(residue := residue, stored := stored, credentials := None, bearer := None, state := SignedOut,
       generation := (a.generation + 1) % GENERATIONS)
  }

  function MessageDismissed(a: Account): Account {
    if a.residue.Unread? then a.(residue := Acknowledged) else a
  }

  function RetryDismissed(a: Account): Account {
    if a.residue.Unread? || a.residue.Acknowledged? then a.(residue := Retired) else a
  }

  /** `signIn` up to its first await. */
  function SignInStarted(a: Account, load: Answer, configured: bool): Progress {
    var b := if a.refusedToAnswer then Restored(a, load) else a;
    if a.refusedToAnswer && (b.refusedToAnswer || b.credentials.Some?) then Over(b)
    else if !configured then Over(b.(state := Failed(NotConfigured)))
    else Parked(b, Beginning(b.generation))
  }

  function LoginFailed(a: Account, why: Trouble): Account {
    a.(credentials := None, bearer := None, state := Failed(why))
  }

  /** `signIn` between its two awaits. */
  function Begun(a: Account, f: Frame, failure: Option<Trouble>): Progress {
    if a.generation != f.generation then Over(a)
    else if failure.Some? then Over(LoginFailed(a, failure.value))
    else Parked(a.(state := AwaitingBrowser, tabs := a.tabs + 1), InBrowser(f.generation))
  }

  function Saved(a: Account, minted: Credentials): Account {
    Published(a.(stored := Some(minted), residue := Gone, credentials := Some(minted)))
  }

  /** `signIn` after its second await. */
  function Completed(a: Account, f: Frame, outcome: Result<Credentials, Trouble>, save: Answer): Account {
    if a.generation != f.generation then a
    else if outcome.Err? then LoginFailed(a, outcome.error)
    else if save.Refused? then LoginFailed(a, save.why)
    else Saved(a, outcome.value)
  }

  /** `refreshIfNeeded` up to its await. */
  function RefreshStarted(a: Account, now: nat, clear: Removal): Progress {
    match a.credentials
    case None => Over(a)
    case Some(current) =>
      if !current.NeedsRenewal(now) then Over(a)
      else if current.refresh.None? then Over(if current.HasExpired(now) then SignedOutOf(a, clear) else a)
      else Parked(a, Renewing(a.generation, current, current.refresh.value, now))
  }

  function RenewalFailed(a: Account, f: Frame, why: Trouble): Account
    requires f.Renewing?
  {
    if !f.current.HasExpired(f.now) then a
    else if a.state.AwaitingBrowser? then a.(bearer := None)
    else a.(bearer := None, state := Failed(why))
  }

  /** `refreshIfNeeded` after its await. */
  function Renewed(a: Account, f: Frame, outcome: Result<Credentials, RenewalError>, save: Answer, clear: Removal): Account
    requires f.Renewing?
  {
    if a.generation != f.generation then a
    else match outcome
      case Ok(minted) => if save.Done? then Saved(a, minted) else RenewalFailed(a, f, save.why)
      case Err(LoginRefused) =>
        if a.state.AwaitingBrowser? then a else SignedOutOf(a, clear).(state := Failed(RefusedByIssuer))
      case Err(Unreachable(why)) => RenewalFailed(a, f, why)
  }

  // ---- What the Account screen renders about the last sign-out ----

  datatype Disclosure = Silent | Incomplete(why: Trouble) | Retry

  function DisclosureOf(a: Account): Disclosure {
    var settled := a.state.SignedOut? || a.state.Failed?;
    match a.residue
    case Gone | Retired => Silent
    case Unread(why) => if settled then Incomplete(why) else if a.state.AwaitingBrowser? then Retry else Silent
    case Acknowledged => if settled || a.state.AwaitingBrowser? then Retry else Silent
  }

  predicate OffersBareSignOut(a: Account) {
    && DisclosureOf(a).Silent?
    && ((a.state.Failed? && a.credentials.Some?) || (!a.residue.Gone? && (a.state.SignedOut? || a.state.Failed?)))
  }
}
