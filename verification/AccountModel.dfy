/** The account model as the object the app shares, field by field
    (apps/apple/Sunrise/Identity/AccountModel.swift and its three extensions). */
module AccountModel {
  import opened Wrappers
  import opened KeychainErrors
  import opened AccountSession

  /** A credential store that answers, or refuses with what the Keychain says. */
  class CredentialStore {
    var value: Option<Credentials>
    var loadFailure: Option<Trouble>
    var saveFailure: Option<Trouble>
    var clearFailure: Option<Trouble>
    var clearLeaves: bool

    constructor (value: Option<Credentials>)
      ensures this.value == value && loadFailure == None && saveFailure == None && clearFailure == None && !clearLeaves
    {
      this.value := value;
      loadFailure, saveFailure, clearFailure, clearLeaves := None, None, None, false;
    }

    static function AnswerOf(failure: Option<Trouble>): Answer {
      match failure
      case None => Done
      case Some(why) => Refused(why)
    }

    method Load() returns (r: Result<Option<Credentials>, Trouble>)
      ensures r == if loadFailure.None? then Ok(value) else Err(loadFailure.value)
    {
      if loadFailure.Some? {
        return Err(loadFailure.value);
      }
      return Ok(value);
    }

    method Save(credentials: Credentials) returns (answer: Answer)
      modifies this`value
      ensures answer == AnswerOf(saveFailure)
      ensures value == if saveFailure.None? then Some(credentials) else old(value)
    {
      answer := AnswerOf(saveFailure);
      if answer.Done? {
        value := Some(credentials);
      }
    }

    function RemovalOf(): Removal
      reads this
    {
      match clearFailure
      case None => Removed
      case Some(why) => Declined(why, clearLeaves)
    }

    method Clear() returns (answer: Removal)
      modifies this`value
      ensures answer == RemovalOf()
      ensures value == if clearFailure.Some? && clearLeaves then old(value) else None
    {
      answer := RemovalOf();
      if answer.Removed? || !answer.left {
        value := None;
      }
    }
  }

  /** What may run on the main actor while a renewal is suspended or the loop sleeps. */
  datatype Interruption = SignOutPressed | RestoreCalled | MessageDismissal | RetryDismissal

  /** One turn of the renewal loop: the clock, the issuer's answer, and what happens around them. */
  datatype Turn = Turn(
    now: nat,
    outcome: Result<Credentials, RenewalError>,
    meanwhile: seq<Interruption>,
    cancelledAfterLook: bool,
    asleep: seq<Interruption>,
    cancelledAsleep: bool)

  class AccountModel {
    const store: CredentialStore
    var state: State
    var accessToken: Option<string>
    var signOutResidue: Residue
    var credentials: Option<Credentials>
    var storeRefusedToAnswer: bool
    var sessionGeneration: nat
    var tabs: nat

    constructor (store: CredentialStore)
      ensures this.store == store
      ensures View() == Account(SignedOut, None, Gone, None, false, 0, 0, store.value)
    {
      this.store := store;
      state, accessToken, signOutResidue, credentials := SignedOut, None, Gone, None;
      storeRefusedToAnswer, sessionGeneration, tabs := false, 0, 0;
    }

    function View(): Account
      reads this, store
    {
      Account(state, accessToken, signOutResidue, credentials, storeRefusedToAnswer, sessionGeneration, tabs,
              store.value)
    }

    function Loads(): Answer
      reads this, store
    {
      CredentialStore.AnswerOf(store.loadFailure)
    }

    function Saves(): Answer
      reads this, store
    {
      CredentialStore.AnswerOf(store.saveFailure)
    }

    function Clears(): Removal
      reads this, store
    {
      store.RemovalOf()
    }

    method Publish()
      modifies this`accessToken, this`state
      ensures View() == Published(old(View()))
    {
      if credentials.None? {
        accessToken, state := None, SignedOut;
      } else {
        accessToken, state := Some(credentials.value.access), SignedIn(credentials.value.expiresAt);
      }
    }

    method Restore()
      modifies this
      ensures View() == Restored(old(View()), Loads())
    {
      var answer := store.Load();
      if answer.Ok? {
        credentials := answer.value;
        storeRefusedToAnswer := false;
        Publish();
      } else {
        credentials, accessToken := None, None;
        storeRefusedToAnswer := MayHaveLeftACopyUnread(answer.error);
        state := Failed(answer.error);
      }
    }

    method RestoreIfUnread()
      modifies this
      ensures View() == RestoredIfUnread(old(View()), Loads())
    {
      if state == SignedOut && credentials == None && signOutResidue == Gone {
        Restore();
      }
    }

    method SignOut()
      modifies this, store`value
      ensures View() == SignedOutOf(old(View()), Clears())
    {
      var cleared := store.Clear();
      if cleared.Removed? {
        signOutResidue := Gone;
      } else {
        signOutResidue := Unread(cleared.why);
      }
      credentials, accessToken := None, None;
      state := SignedOut;
      sessionGeneration := (sessionGeneration + 1) % GENERATIONS;
    }

    method DismissSignOutIncomplete()
      modifies this`signOutResidue
      ensures View() == MessageDismissed(old(View()))
    {
      if signOutResidue.Unread? {
        signOutResidue := Acknowledged;
      }
    }

    method DismissSignOutRetry()
      modifies this`signOutResidue
      ensures View() == RetryDismissed(old(View()))
    {
      if signOutResidue.Unread? || signOutResidue.Acknowledged? {
        signOutResidue := Retired;
      }
    }

    /** `signIn`, up to `driver.begin`. */
    method SignIn(configured: bool) returns (frame: Option<Frame>)
      modifies this
      ensures SignInStarted(old(View()), Loads(), configured)
           == if frame.Some? then Parked(View(), frame.value) else Over(View())
    {
      if storeRefusedToAnswer {
        Restore();
        if storeRefusedToAnswer || credentials.Some? {
          return None;
        }
      }
      if !configured {
        state := Failed(NotConfigured);
        return None;
      }
      return Some(Beginning(sessionGeneration));
    }

    /** `signIn`, from `driver.begin` to `driver.complete`. */
    method SignInBegun(frame: Frame, failure: Option<Trouble>) returns (next: Option<Frame>)
      modifies this
      ensures Begun(old(View()), frame, failure)
           == if next.Some? then Parked(View(), next.value) else Over(View())
    {
      if sessionGeneration != frame.generation {
        return None;
      }
      if failure.Some? {
        FailLogin(failure.value);
        return None;
      }
      state := AwaitingBrowser;
      tabs := tabs + 1;
      return Some(InBrowser(frame.generation));
    }

    method FailLogin(why: Trouble)
      modifies this`credentials, this`accessToken, this`state
      ensures View() == LoginFailed(old(View()), why)
    {
      credentials, accessToken := None, None;
      state := Failed(why);
    }

    /** `signIn`, after `driver.complete`. */
    method SignInCompleted(frame: Frame, outcome: Result<Credentials, Trouble>)
      modifies this, store`value
      ensures View() == Completed(old(View()), frame, outcome, Saves())
    {
      if sessionGeneration != frame.generation {
        return;
      }
      if outcome.Err? {
        FailLogin(outcome.error);
        return;
      }
      var saved := store.Save(outcome.value);
      if saved.Refused? {
        FailLogin(saved.why);
        return;
      }
      signOutResidue := Gone;
      credentials := Some(outcome.value);
      Publish();
    }

    /** `refreshIfNeeded`, up to `driver.refresh`. */
    method RefreshIfNeeded(now: nat) returns (frame: Option<Frame>)
      modifies this, store`value
      ensures RefreshStarted(old(View()), now, Clears())
           == if frame.Some? then Parked(View(), frame.value) else Over(View())
      ensures frame.Some? ==> frame.value.Renewing?
    {
      if credentials.None? || !credentials.value.NeedsRenewal(now) {
        return None;
      }
      var current := credentials.value;
      if current.refresh.None? {
        if current.HasExpired(now) {
          SignOut();
        }
        return None;
      }
      return Some(Renewing(sessionGeneration, current, current.refresh.value, now));
    }

    /** `refreshIfNeeded`, after `driver.refresh`. */
    method RefreshAnswered(frame: Frame, outcome: Result<Credentials, RenewalError>)
      requires frame.Renewing?
      modifies this, store`value
      ensures View() == Renewed(old(View()), frame, outcome, Saves(), Clears())
    {
      if sessionGeneration != frame.generation {
        return;
      }
      var why;
      if outcome.Ok? {
        var saved := store.Save(outcome.value);
        if saved.Done? {
          signOutResidue := Gone;
          credentials := Some(outcome.value);
          Publish();
          return;
        }
        why := saved.why;
      } else if outcome.error.LoginRefused? {
        if state != AwaitingBrowser {
          SignOut();
          state := Failed(RefusedByIssuer);
        }
        return;
      } else {
        why := outcome.error.why;
      }
      if frame.current.HasExpired(frame.now) {
        accessToken := None;
        if state != AwaitingBrowser {
          state := Failed(why);
        }
      }
    }

    method Interrupt(what: Interruption)
      modifies this, store`value
      ensures View() == Interrupted(old(View()), what, Loads(), Clears())
    {
      match what
      case SignOutPressed => SignOut();
      case RestoreCalled => Restore();
      case MessageDismissal => DismissSignOutIncomplete();
      case RetryDismissal => DismissSignOutRetry();
    }

    method InterruptAll(interruptions: seq<Interruption>)
      modifies this, store`value
      ensures View() == AllInterrupted(old(View()), interruptions, Loads(), Clears())
    {
      for i := 0 to |interruptions|
        invariant AllInterrupted(View(), interruptions[i..], Loads(), Clears())
               == AllInterrupted(old(View()), interruptions, Loads(), Clears())
        invariant store.loadFailure == old(store.loadFailure)
        invariant store.clearFailure == old(store.clearFailure) && store.clearLeaves == old(store.clearLeaves)
        invariant store.saveFailure == old(store.saveFailure)
      {
        Interrupt(interruptions[i]);
        assert interruptions[i..][1..] == interruptions[i + 1..];
      }
    }

    /** One look at the clock, with what runs while its renewal is suspended. */
    method TakeALook(turn: Turn)
      modifies this, store`value
      ensures View() == Looked(old(View()), turn, Loads(), Saves(), Clears())
    {
      var frame := RefreshIfNeeded(turn.now);
      if frame.Some? {
        InterruptAll(turn.meanwhile);
        RefreshAnswered(frame.value, turn.outcome);
      }
    }

    /** The renewal loop: one look per turn, the first before any sleep. It
        returns what it told the sync driver. */
    method RenewWhileRunning(turns: seq<Turn>) returns (told: seq<Option<string>>)
      modifies this, store`value
      ensures Ran(View(), told) == RunFrom(old(View()), turns, 0, [], Loads(), Saves(), Clears())
    {
      told := [];
      for i := 0 to |turns|
        invariant Loads() == old(Loads()) && Saves() == old(Saves()) && Clears() == old(Clears())
        invariant RunFrom(View(), turns, i, told, Loads(), Saves(), Clears())
               == RunFrom(old(View()), turns, 0, [], Loads(), Saves(), Clears())
      {
        var before := accessToken;
        TakeALook(turns[i]);
        if accessToken != before && !turns[i].cancelledAfterLook {
          told := told + [accessToken];
        }
        if turns[i].cancelledAfterLook {
          return;
        }
        InterruptAll(turns[i].asleep);
        if turns[i].cancelledAsleep {
          return;
        }
      }
    }
  }

  // ---- The renewal loop as a function ----

  function Interrupted(a: Account, what: Interruption, load: Answer, clear: Removal): Account {
    match what
    case SignOutPressed => SignedOutOf(a, clear)
    case RestoreCalled => Restored(a, load)
    case MessageDismissal => MessageDismissed(a)
    case RetryDismissal => RetryDismissed(a)
  }

  function AllInterrupted(a: Account, interruptions: seq<Interruption>, load: Answer, clear: Removal): Account
    decreases |interruptions|
  {
    if interruptions == [] then a
    else AllInterrupted(Interrupted(a, interruptions[0], load, clear), interruptions[1..], load, clear)
  }

  /** The account after one look at the clock. */
  function Looked(a: Account, turn: Turn, load: Answer, save: Answer, clear: Removal): Account {
    match RefreshStarted(a, turn.now, clear)
    case Over(b) => b
    case Parked(b, frame) =>
      if frame.Renewing? then Renewed(AllInterrupted(b, turn.meanwhile, load, clear), frame, turn.outcome, save, clear)
      else b
  }

  datatype Ran = Ran(account: Account, told: seq<Option<string>>)

  function RunFrom(a: Account, turns: seq<Turn>, i: nat, told: seq<Option<string>>, load: Answer, save: Answer, clear: Removal): Ran
    decreases |turns| - i
  {
    if i >= |turns| then Ran(a, told)
    else
      var b := Looked(a, turns[i], load, save, clear);
      var told' := if b.bearer != a.bearer && !turns[i].cancelledAfterLook then told + [b.bearer] else told;
      if turns[i].cancelledAfterLook then Ran(b, told')
      else
        var c := AllInterrupted(b, turns[i].asleep, load, clear);
        if turns[i].cancelledAsleep then Ran(c, told') else RunFrom(c, turns, i + 1, told', load, save, clear)
  }
}
