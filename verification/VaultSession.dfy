/** A session over one vault directory: starting, creating, adopting a paired
    root, locking, and restoring an account from a recovery code
    (apps/apple/Sunrise/Identity/SessionModel.swift:215-430, 477-512,
    SessionModelRestore.swift:90-174). What the Keychain, the random source, the
    file system and the core answer is a parameter. */
module VaultSession {
  import opened Wrappers

  type Root = nat

  /** How a vault came to be written: by an open that found none, by the open that
      spends a pairing's bundle, or by a recovery. */
  datatype Origin = Empty | Paired | Replayed

  /** A vault on disk, readable only under the root it was written under. */
  datatype Vault = Vault(id: nat, root: Root, origin: Origin)

  /** What is at a directory: nothing, files that are no vault, or a vault. */
  datatype Place = Nothing | Scraps | Holds(vault: Vault)

  datatype Phase = Starting | FirstRun | KeychainUnavailable | KeyMissing | LockedByUser | Unlocked | FailedToOpen

  /** A restore waiting for the core: the root it will use, and where the vault it displaced is. */
  datatype Restore = Restore(root: Root, aside: Option<nat>)

  datatype Session = Session(
    configured: bool,
    phase: Phase,
    stored: Option<Root>,
    open: Option<Vault>,
    main: Place,
    asides: map<nat, Place>,
    restoring: Option<Restore>,
    nextVault: nat,
    nextRoot: Root)

  /** How the core ends a recovery: it wrote the vault and caught up, wrote it and
      did not, or refused and left at most files that are no vault. */
  datatype Recovery = Restored | Incomplete | RefusedLeaving(scraps: bool)

  datatype Step =
    | Start(answers: bool, opens: bool)
    | Create(random: bool, stores: bool, opens: bool)
    | Adopt(root: Root, sized: bool, stores: bool, opens: bool)
    | Lock
    | RestoreBegin(relay: bool, stamp: nat, moves: bool, random: bool)
    | RestoreEnd(outcome: Recovery, stores: bool, opens: bool, removes: bool, moves: bool)

  /** `open(with:)`: a vault opens under its own root only; where there is none, one is written. */
  function Opened(s: Session, root: Root, origin: Origin, opens: bool): Session {
    if !opens || (s.main.Holds? && s.main.vault.root != root) then s.(phase := FailedToOpen)
    else if s.main.Holds? then s.(phase := Unlocked, open := Some(s.main.vault))
    else
      var vault := Vault(s.nextVault, root, origin);
      s.(phase := Unlocked, open := Some(vault), main := Holds(vault), nextVault := s.nextVault + 1)
  }

  function Started(s: Session, answers: bool, opens: bool): Session {
    if s.phase.Unlocked? then s
    else if !s.configured then s.(phase := FailedToOpen)
    else if !answers then s.(phase := KeychainUnavailable)
    else match s.stored
      case None => s.(phase := if s.main.Nothing? then FirstRun else KeyMissing)
      case Some(root) => Opened(s, root, Empty, opens)
  }

  function Created(s: Session, random: bool, stores: bool, opens: bool): Session {
    if !s.phase.FirstRun? then s
    else if !random || !stores then s.(phase := FailedToOpen)
    else Opened(s.(stored := Some(s.nextRoot), nextRoot := s.nextRoot + 1), s.nextRoot, Empty, opens)
  }

  function Adopted(s: Session, root: Root, sized: bool, stores: bool, opens: bool): Session {
    if s.phase.Unlocked? then s
    else if !sized || !stores then s.(phase := FailedToOpen)
    else Opened(s.(stored := Some(root), nextRoot := Max(s.nextRoot, root + 1)), root, Paired, opens)
  }

  function LockedOut(s: Session): Session {
    s.(phase := LockedByUser, open := None)
  }

  predicate CanRestore(s: Session) {
    s.phase.FirstRun? || s.phase.KeyMissing?
  }

  /** `restoreAccount` up to the recovery: set the directory aside, then make a root. */
  function RestoreBegun(s: Session, relay: bool, stamp: nat, moves: bool, random: bool): Session {
    if !CanRestore(s) || !relay then s
    else if !s.main.Nothing? && (!moves || stamp in s.asides) then s
    else
      var moved := if s.main.Nothing? then s else s.(main := Nothing, asides := s.asides[stamp := s.main]);
      if !random then moved
      else moved.(restoring := Some(Restore(s.nextRoot, if s.main.Nothing? then None else Some(stamp))), nextRoot := s.nextRoot + 1)
  }

  /** What the recovery left at the directory: it writes no vault over one that is there. */
  function Recovered(s: Session, root: Root, outcome: Recovery): Session {
    if s.main.Holds? then s
    else if outcome.RefusedLeaving? then (if outcome.scraps then s.(main := Scraps) else s)
    else s.(main := Holds(Vault(s.nextVault, root, Replayed)), nextVault := s.nextVault + 1)
  }

  /** `putBack`: clear what is at the directory, then move the displaced vault back. */
  function PutBack(s: Session, aside: Option<nat>, removes: bool, moves: bool): Session {
    if !s.main.Nothing? && !removes then s
    else
      var cleared := s.(main := Nothing);
      if aside.Some? && aside.value in s.asides && moves
      then cleared.(main := s.asides[aside.value], asides := s.asides - {aside.value})
      else cleared
  }

  function RestoreEnded(s: Session, outcome: Recovery, stores: bool, opens: bool, removes: bool, moves: bool): Session
    requires s.restoring.Some?
  {
    var r := s.restoring.value;
    var after := Recovered(s, r.root, outcome).(restoring := None);
    if outcome.RefusedLeaving? then PutBack(after, r.aside, removes, moves)
    else if !stores then after
    else Opened(after.(stored := Some(r.root)), r.root, Empty, opens)
  }

  predicate Enabled(s: Session, step: Step) {
    match step
    case RestoreBegin(_, _, _, _) => s.restoring.None?
    case RestoreEnd(outcome, _, _, _, _) =>
      s.restoring.Some? && (s.main.Holds? ==> outcome.RefusedLeaving?)
    case _ => true
  }

  function Next(s: Session, step: Step): Session
    requires Enabled(s, step)
  {
    match step
    case Start(answers, opens) => Started(s, answers, opens)
    case Create(random, stores, opens) => Created(s, random, stores, opens)
    case Adopt(root, sized, stores, opens) => Adopted(s, root, sized, stores, opens)
    case Lock => LockedOut(s)
    case RestoreBegin(relay, stamp, moves, random) => RestoreBegun(s, relay, stamp, moves, random)
    case RestoreEnd(outcome, stores, opens, removes, moves) => RestoreEnded(s, outcome, stores, opens, removes, moves)
  }

  predicate CanRun(s: Session, steps: seq<Step>)
    decreases |steps|
  {
    steps == [] || (Enabled(s, steps[0]) && CanRun(Next(s, steps[0]), steps[1..]))
  }

  function Run(s: Session, steps: seq<Step>): Session
    requires CanRun(s, steps)
    decreases |steps|
  {
    if steps == [] then s else Run(Next(s, steps[0]), steps[1..])
  }

  // ---- What every run keeps ----

  /** No two vaults are the same one, in place or set aside. */
  ghost predicate Apart(s: Session) {
    && (s.main.Holds? ==> s.main.vault.id < s.nextVault)
    && (forall t | t in s.asides && s.asides[t].Holds? :: s.asides[t].vault.id < s.nextVault)
    && (forall t | t in s.asides && s.asides[t].Holds? && s.main.Holds? :: s.asides[t].vault.id != s.main.vault.id)
    && (forall t, u | t in s.asides && u in s.asides && t != u && s.asides[t].Holds? && s.asides[u].Holds? ::
          s.asides[t].vault.id != s.asides[u].vault.id)
  }

  /** Every root in use has been handed out. */
  ghost predicate RootsAreOld(s: Session) {
    && (s.main.Holds? ==> s.main.vault.root < s.nextRoot)
    && (s.restoring.Some? ==> s.restoring.value.root < s.nextRoot)
    && (forall t | t in s.asides && s.asides[t].Holds? :: s.asides[t].vault.root < s.nextRoot)
    && (s.stored.Some? ==> s.stored.value < s.nextRoot)
  }

  ghost predicate Sound(s: Session) {
    Apart(s) && RootsAreOld(s)
  }

  /** A session as the app makes it, over whatever is on disk and in the Keychain. */
  ghost predicate Launched(s: Session) {
    s.phase.Starting? && s.open.None? && s.restoring.None? && Sound(s)
  }

  lemma OpeningStaysSound(s: Session, root: Root, origin: Origin, opens: bool)
    requires Sound(s) && root < s.nextRoot
    ensures Sound(Opened(s, root, origin, opens))
  {}

  lemma SettingAsideStaysSound(s: Session, relay: bool, stamp: nat, moves: bool, random: bool)
    requires Sound(s)
    ensures Sound(RestoreBegun(s, relay, stamp, moves, random))
  {
    var moved := s.(main := Nothing, asides := s.asides[stamp := s.main]);
    if stamp !in s.asides {
      assert forall t | t in moved.asides :: moved.asides[t] == if t == stamp then s.main else s.asides[t];
      assert Sound(moved);
    }
  }

  lemma PuttingBackStaysSound(s: Session, aside: Option<nat>, removes: bool, moves: bool)
    requires Sound(s)
    ensures Sound(PutBack(s, aside, removes, moves))
  {}

  lemma RecoveryStaysSound(s: Session, outcome: Recovery, stores: bool, opens: bool, removes: bool, moves: bool)
    requires Sound(s) && s.restoring.Some?
    ensures Sound(RestoreEnded(s, outcome, stores, opens, removes, moves))
  {
    var root := s.restoring.value.root;
    var after := Recovered(s, root, outcome).(restoring := None);
    assert Sound(after);
    OpeningStaysSound(after.(stored := Some(root)), root, Empty, opens);
    PuttingBackStaysSound(after, s.restoring.value.aside, removes, moves);
  }

  lemma {:induction false} NextStaysSound(s: Session, step: Step)
    requires Sound(s) && Enabled(s, step)
    ensures Sound(Next(s, step))
  {
    match step
    case Start(_, opens) =>
      if s.stored.Some? {
        OpeningStaysSound(s, s.stored.value, Empty, opens);
      }
    case Create(_, _, opens) => OpeningStaysSound(s.(stored := Some(s.nextRoot), nextRoot := s.nextRoot + 1), s.nextRoot, Empty, opens);
    case Adopt(root, _, _, opens) => OpeningStaysSound(s.(stored := Some(root), nextRoot := Max(s.nextRoot, root + 1)), root, Paired, opens);
    case RestoreBegin(relay, stamp, moves, random) => SettingAsideStaysSound(s, relay, stamp, moves, random);
    case RestoreEnd(outcome, stores, opens, removes, moves) => RecoveryStaysSound(s, outcome, stores, opens, removes, moves);
    case Lock =>
  }

  /** Over every run from a launch, other operations during a restore included:
      vaults stay apart, and a root made later is none of those in use. */
  lemma {:induction false} EveryRunIsSound(s: Session, steps: seq<Step>)
    requires Sound(s) && CanRun(s, steps)
    ensures Sound(Run(s, steps))
    decreases |steps|
  {
    if steps != [] {
      NextStaysSound(s, steps[0]);
      EveryRunIsSound(Next(s, steps[0]), steps[1..]);
    }
  }

  // ---- No vault is lost ----

  /** A vault that is still somewhere on disk, in place or set aside. */
  ghost predicate OnDisk(s: Session, v: Vault) {
    s.main == Holds(v) || exists stamp :: stamp in s.asides && s.asides[stamp] == Holds(v)
  }

  /** The end of a refused restore that clears a vault written while the restore was waiting. */
  predicate Clears(s: Session, step: Step) {
    step.RestoreEnd? && step.outcome.RefusedLeaving? && step.removes && s.main.Holds?
  }

  lemma {:induction false} EveryVaultIsKept(s: Session, step: Step)
    requires Enabled(s, step) && !Clears(s, step)
    ensures forall v :: OnDisk(s, v) ==> OnDisk(Next(s, step), v)
  {
    forall v | OnDisk(s, v)
      ensures OnDisk(Next(s, step), v)
    {
      if s.main == Holds(v) {
        MainIsKept(s, step);
      } else {
        AsidesAreKept(s, step, v);
      }
    }
  }

  /** At any point of any run from a launch, one step keeps every vault on disk, with exactly one exception. */
  lemma {:induction false} EveryVaultIsKeptIff(launch: Session, steps: seq<Step>, step: Step)
    requires Launched(launch) && CanRun(launch, steps) && Enabled(Run(launch, steps), step)
    ensures var s := Run(launch, steps);
            (forall v :: OnDisk(s, v) ==> OnDisk(Next(s, step), v)) <==> !Clears(s, step)
  {
    var s := Run(launch, steps);
    EveryRunIsSound(launch, steps);
    if Clears(s, step) {
      assert OnDisk(s, s.main.vault) && !OnDisk(Next(s, step), s.main.vault);
    } else {
      EveryVaultIsKept(s, step);
    }
  }

  lemma AsidesAreKept(s: Session, step: Step, v: Vault)
    requires Enabled(s, step) && OnDisk(s, v) && s.main != Holds(v)
    ensures OnDisk(Next(s, step), v)
  {
    var stamp :| stamp in s.asides && s.asides[stamp] == Holds(v);
    var s' := Next(s, step);
    assert stamp in s'.asides ==> s'.asides[stamp] == Holds(v);
    assert stamp in s'.asides || s'.main == Holds(v);
  }

  lemma MainIsKept(s: Session, step: Step)
    requires Enabled(s, step) && s.main.Holds? && !Clears(s, step)
    ensures OnDisk(Next(s, step), s.main.vault)
  {
    if step.RestoreBegin? && CanRestore(s) && step.relay && step.moves && step.stamp !in s.asides {
      assert Next(s, step).asides[step.stamp] == s.main;
    }
  }

  /** Nothing else runs while a restore waits: the screens keep to this, the session does not. */
  predicate OneAtATime(s: Session, step: Step) {
    s.restoring.Some? ==> step.RestoreEnd?
  }

  predicate OneAtATimeRun(s: Session, steps: seq<Step>)
    requires CanRun(s, steps)
    decreases |steps|
  {
    steps == [] || (OneAtATime(s, steps[0]) && OneAtATimeRun(Next(s, steps[0]), steps[1..]))
  }

  /** While a restore waits, there is no vault at the directory for it to clear. */
  ghost predicate Vacated(s: Session) {
    s.restoring.Some? ==> !s.main.Holds?
  }

  /** Over every run in which nothing else happens during a restore, refused,
      incomplete and interrupted in any way: no vault that was ever on disk is lost. */
  lemma {:induction false} NoVaultIsLost(s: Session, steps: seq<Step>, v: Vault)
    requires Vacated(s) && OnDisk(s, v) && CanRun(s, steps) && OneAtATimeRun(s, steps)
    ensures OnDisk(Run(s, steps), v)
    decreases |steps|
  {
    if steps != [] {
      EveryVaultIsKept(s, steps[0]);
      NoVaultIsLost(Next(s, steps[0]), steps[1..], v);
    }
  }

  /** A first launch over an empty directory. */
  const New: Session := Session(true, Starting, None, None, Nothing, map[], None, 0, 0)

  /** Without that, one can be: a vault created while a restore waits is cleared when the restore is refused. */
  lemma {:induction false} AVaultMadeDuringARestoreIsLost() returns (steps: seq<Step>)
    ensures |steps| == 4 && CanRun(New, steps) && CanRun(New, steps[..3])
    ensures Run(New, steps[..3]).phase == Unlocked && OnDisk(Run(New, steps[..3]), Vault(0, 1, Empty))
    ensures Run(New, steps).stored == Some(1) && !OnDisk(Run(New, steps), Vault(0, 1, Empty))
  {
    steps := [Start(true, true), RestoreBegin(true, 0, true, true), Create(true, true, true),
              RestoreEnd(RefusedLeaving(false), true, true, true, true)];
    var s1 := Next(New, steps[0]);
    var s2 := Next(s1, steps[1]);
    var s3 := Next(s2, steps[2]);
    var s4 := Next(s3, steps[3]);
    assert s3.main == Holds(Vault(0, 1, Empty)) && s4.main == Nothing && s4.asides == map[];
    RunOfThree(New, steps[..3]);
    var rest := steps[1..];
    RunOfThree(s1, rest);
    assert CanRun(New, steps) && Run(New, steps) == Run(s1, rest);
  }

  lemma RunOfThree(s: Session, steps: seq<Step>)
    requires |steps| == 3 && Enabled(s, steps[0])
    requires Enabled(Next(s, steps[0]), steps[1]) && Enabled(Next(Next(s, steps[0]), steps[1]), steps[2])
    ensures CanRun(s, steps) && Run(s, steps) == Next(Next(Next(s, steps[0]), steps[1]), steps[2])
  {
    var a, b, c := steps[1..], steps[2..], steps[3..];
    assert a[1..] == b && b[1..] == c && c == [];
    var s1 := Next(s, steps[0]);
    var s2 := Next(s1, steps[1]);
    var s3 := Next(s2, steps[2]);
    assert CanRun(s3, c) && Run(s3, c) == s3;
    assert CanRun(s2, b) && Run(s2, b) == s3;
    assert CanRun(s1, a) && Run(s1, a) == s3;
  }

  // ---- A refused restore ----

  /** A restore that is refused leaves everything as it found it, over whatever
      files it left, exactly when the random source answers before it, and after
      it the leftovers can be cleared and what was set aside moved back. */
  lemma {:induction false} ARefusedRestoreChangesNothingIff(s: Session, stamp: nat, random: bool, scraps: bool, removes: bool, moves: bool)
    requires CanRestore(s) && !s.main.Nothing? && s.restoring.None? && stamp !in s.asides
    ensures var begun := RestoreBegun(s, true, stamp, true, random);
            var ended := if random then RestoreEnded(begun, RefusedLeaving(scraps), true, true, removes, moves) else begun;
            && (ended == s.(nextRoot := ended.nextRoot) <==> random && moves && (scraps ==> removes))
            && (s.main.Holds? ==> OnDisk(ended, s.main.vault)) && ended.stored == s.stored && ended.phase == s.phase
  {
    var begun := RestoreBegun(s, true, stamp, true, random);
    assert begun.asides[stamp] == s.main;
    assert begun.asides - {stamp} == s.asides;
  }

  // ---- The stored root ----

  /** A root is stored only for a vault that is there and was written under it. */
  predicate RootFits(s: Session) {
    s.stored.Some? ==> s.main.Holds? && s.main.vault.root == s.stored.value
  }

  /** Until a vault has been made, adopted or restored, nothing is stored, and a
      first run has found no vault, in place or in the way of a restore. */
  ghost predicate NothingYet(s: Session) {
    && (CanRestore(s) || s.restoring.Some? ==> s.stored.None? && CanRestore(s))
    && (s.phase.FirstRun? ==> !s.main.Holds?)
    && (s.phase.FirstRun? && s.restoring.Some? ==> forall t | s.restoring.value.aside == Some(t) && t in s.asides :: !s.asides[t].Holds?)
  }

  /** The step stores no root, or one the directory has or now gets a vault for:
      creating opens what it stored, and a pairing is for the vault that is there
      or, where there is none, opens what it stored. */
  predicate StoresForAVault(s: Session, step: Step) {
    match step
    case Create(random, stores, opens) => s.phase.FirstRun? && random && stores ==> opens
    case Adopt(root, sized, stores, opens) =>
      !s.phase.Unlocked? && sized && stores ==> if s.main.Holds? then s.main.vault.root == root else opens
    case _ => true
  }

  /** A restore that wrote its vault could store its root. */
  predicate Kept(step: Step) {
    step.RestoreEnd? ==> step.outcome.RefusedLeaving? || step.stores
  }

  /** Creating trusts the launch's look at the directory: of one step, the exact
      condition has to look again. */
  lemma {:induction false} StoringFitsIff(launch: Session, steps: seq<Step>, step: Step)
    requires Launched(launch) && CanRun(launch, steps) && Enabled(Run(launch, steps), step)
    requires var s := Run(launch, steps); RootFits(s) && (CanRestore(s) || s.restoring.Some? ==> s.stored.None?)
    ensures var s := Run(launch, steps);
            RootFits(Next(s, step)) <==>
              && StoresForAVault(s, step)
              && (step.Create? && s.phase.FirstRun? && step.random && step.stores ==> !s.main.Holds?)
              && (step.RestoreEnd? && !step.outcome.RefusedLeaving? && step.stores ==> !s.main.Holds?)
  {
    EveryRunIsSound(launch, steps);
  }

  lemma {:induction false} NothingYetIsKept(s: Session, step: Step)
    requires NothingYet(s) && Vacated(s) && RootFits(s) && Enabled(s, step) && OneAtATime(s, step) && Kept(step)
    ensures NothingYet(Next(s, step)) && Vacated(Next(s, step))
  {}

  lemma {:induction false} FitsNextIff(s: Session, step: Step)
    requires NothingYet(s) && Vacated(s) && RootFits(s) && Sound(s) && Enabled(s, step) && OneAtATime(s, step)
    ensures RootFits(Next(s, step)) <==> StoresForAVault(s, step)
  {}

  predicate FitsThroughout(s: Session, steps: seq<Step>)
    requires CanRun(s, steps)
    decreases |steps|
  {
    RootFits(s) && (steps == [] || FitsThroughout(Next(s, steps[0]), steps[1..]))
  }

  predicate AlwaysStoresForAVault(s: Session, steps: seq<Step>)
    requires CanRun(s, steps)
    decreases |steps|
  {
    steps == [] || (StoresForAVault(s, steps[0]) && AlwaysStoresForAVault(Next(s, steps[0]), steps[1..]))
  }

  /** From any launch, over every run one thing at a time in which restores that
      wrote a vault could store its root: a root is stored only for a vault written
      under it, throughout, exactly when every root that was created was opened and
      every root that was adopted was the directory's or, where it held no vault, opened. */
  lemma {:induction false} TheStoredRootFitsIff(launch: Session, steps: seq<Step>)
    requires Launched(launch) && RootFits(launch) && CanRun(launch, steps) && OneAtATimeRun(launch, steps)
    requires forall step | step in steps :: Kept(step)
    ensures FitsThroughout(launch, steps) <==> AlwaysStoresForAVault(launch, steps)
  {
    FitsFromHereIff(launch, steps);
  }

  lemma {:induction false} FitsFromHereIff(s: Session, steps: seq<Step>)
    requires RootFits(s) && NothingYet(s) && Vacated(s) && Sound(s) && CanRun(s, steps) && OneAtATimeRun(s, steps)
    requires forall step | step in steps :: Kept(step)
    ensures FitsThroughout(s, steps) <==> AlwaysStoresForAVault(s, steps)
    decreases |steps|
  {
    if steps != [] {
      assert steps[0] in steps;
      FitsNextIff(s, steps[0]);
      NothingYetIsKept(s, steps[0]);
      NextStaysSound(s, steps[0]);
      if RootFits(Next(s, steps[0])) {
        FitsFromHereIff(Next(s, steps[0]), steps[1..]);
      }
    }
  }

  /** What fitting is for: a restart opens the vault that was there, and writes
      nothing, exactly when the stored root fits. */
  lemma {:induction false} ARestartFindsItsVaultIff(s: Session)
    requires s.stored.Some? && s.configured
    ensures var again := Started(LockedOut(s), true, true);
            RootFits(s) <==> again.phase.Unlocked? && s.main == again.main && again.open == Some(again.main.vault)
  {}

  /** A root that was created but not opened stands for a vault that is not there. */
  lemma {:induction false} CreatingCanStoreForNothing()
    ensures var steps := [Start(true, true), Create(true, true, false), Start(true, true)];
            && CanRun(New, steps[..2]) && Run(New, steps[..2]).stored == Some(0) && Run(New, steps[..2]).main == Nothing
            && CanRun(New, steps) && Run(New, steps).open == Some(Vault(0, 0, Empty))
  {
    var steps := [Start(true, true), Create(true, true, false), Start(true, true)];
    assert steps[..2][..1] == [Start(true, true)] && steps[..2] == [steps[0], steps[1]];
    RunOfThree(New, steps);
    RunOfTwo(New, steps[..2]);
  }

  /** Over a pairing's root the next launch then opens an empty vault, and the bundle is spent. */
  lemma {:induction false} AdoptingCanEndInAnEmptyVault()
    ensures var steps := [Start(true, true), Adopt(7, true, true, false), Start(true, true)];
            && CanRun(New, steps) && Run(New, steps).phase.Unlocked? && Run(New, steps).open == Some(Vault(0, 7, Empty))
            && CanRun(New, steps[..2]) && !RootFits(Run(New, steps[..2]))
  {
    var steps := [Start(true, true), Adopt(7, true, true, false), Start(true, true)];
    assert steps[..2] == [steps[0], steps[1]];
    RunOfThree(New, steps);
    RunOfTwo(New, steps[..2]);
  }

  /** A vault restored under a root the Keychain refused is shut out for good by
      creating afterwards: one thing at a time, and the launch's look is out of date. */
  lemma {:induction false} CreatingAfterAnUnkeptRestoreShutsItOut() returns (steps: seq<Step>)
    ensures |steps| == 4 && CanRun(New, steps) && OneAtATimeRun(New, steps) && AlwaysStoresForAVault(New, steps)
    ensures var s := Run(New, steps);
            && s.main == Holds(Vault(0, 0, Replayed)) && s.stored == Some(1) && !RootFits(s)
            && Started(s, true, true).phase.FailedToOpen?
  {
    steps := [Start(true, true), RestoreBegin(true, 0, true, true), RestoreEnd(Restored, false, true, true, true),
              Create(true, true, true)];
    var s1 := Next(New, steps[0]);
    var s2 := Next(s1, steps[1]);
    var s3 := Next(s2, steps[2]);
    var s4 := Next(s3, steps[3]);
    var a, b, c, d := steps[1..], steps[2..], steps[3..], steps[4..];
    assert a[1..] == b && b[1..] == c && c[1..] == d && d == [];
    assert s1.phase.FirstRun? && s2.restoring == Some(Restore(0, None)) && s3.main == Holds(Vault(0, 0, Replayed)) && s3.phase.FirstRun?;
    assert CanRun(s4, d) && Run(s4, d) == s4 && OneAtATimeRun(s4, d) && AlwaysStoresForAVault(s4, d);
    assert CanRun(s3, c) && Run(s3, c) == s4 && OneAtATimeRun(s3, c) && AlwaysStoresForAVault(s3, c);
    assert CanRun(s2, b) && Run(s2, b) == s4 && OneAtATimeRun(s2, b) && AlwaysStoresForAVault(s2, b);
    assert CanRun(s1, a) && Run(s1, a) == s4 && OneAtATimeRun(s1, a) && AlwaysStoresForAVault(s1, a);
  }

  lemma RunOfTwo(s: Session, steps: seq<Step>)
    requires |steps| == 2 && Enabled(s, steps[0]) && Enabled(Next(s, steps[0]), steps[1])
    ensures CanRun(s, steps) && Run(s, steps) == Next(Next(s, steps[0]), steps[1])
  {
    var a, b := steps[1..], steps[2..];
    assert a[1..] == b && b == [];
    var s1 := Next(s, steps[0]);
    var s2 := Next(s1, steps[1]);
    assert CanRun(s2, b) && Run(s2, b) == s2;
    assert CanRun(s1, a) && Run(s1, a) == s2;
  }

  /** A restore that wrote its vault and could store its root opens that vault and
      no other, caught up or not; one that could not store it leaves a vault no root opens. */
  lemma {:induction false} AWrittenRestoreOpensIff(launch: Session, steps: seq<Step>, outcome: Recovery, stores: bool, removes: bool, moves: bool)
    requires Launched(launch) && launch.configured && CanRun(launch, steps) && OneAtATimeRun(launch, steps)
    requires var s := Run(launch, steps); s.restoring.Some? && !outcome.RefusedLeaving?
    ensures var s := Run(launch, steps);
            var ended := RestoreEnded(s, outcome, stores, true, removes, moves);
            && ended.main == Holds(Vault(s.nextVault, s.restoring.value.root, Replayed))
            && (Started(LockedOut(ended), true, true).phase.Unlocked? <==> stores)
            && (stores ==> ended.open == Some(ended.main.vault) && RootFits(ended))
  {
    WaitingHoldsNothing(launch, steps);
  }

  /** While a restore waits with nothing else running, nothing is stored and the directory holds no vault. */
  lemma {:induction false} WaitingHoldsNothing(s: Session, steps: seq<Step>)
    requires CanRun(s, steps) && OneAtATimeRun(s, steps)
    requires Vacated(s) && (CanRestore(s) || s.restoring.Some? ==> s.stored.None?)
    ensures var s' := Run(s, steps);
            && s'.configured == s.configured && (s'.restoring.Some? ==> !s'.main.Holds? && s'.stored.None?)
    decreases |steps|
  {
    if steps != [] {
      WaitingHoldsNothing(Next(s, steps[0]), steps[1..]);
    }
  }

  // ---- The session ----

  class SessionModel {
    const configured: bool
    var phase: Phase
    var stored: Option<Root>
    var bridge: Option<Vault>
    var main: Place
    var asides: map<nat, Place>
    var restoring: Option<Restore>
    var nextVault: nat
    var nextRoot: Root

    constructor (configured: bool, stored: Option<Root>, main: Place, nextVault: nat, nextRoot: Root)
      ensures View() == Session(configured, Starting, stored, None, main, map[], None, nextVault, nextRoot)
    {
      this.configured := configured;
      phase, bridge, asides, restoring := Starting, None, map[], None;
      this.stored, this.main, this.nextVault, this.nextRoot := stored, main, nextVault, nextRoot;
    }

    function View(): Session
      reads this
    {
      Session(configured, phase, stored, bridge, main, asides, restoring, nextVault, nextRoot)
    }

    method Open(root: Root, origin: Origin, opens: bool)
      modifies this
      ensures View() == Opened(old(View()), root, origin, opens)
    {
      if !opens || (main.Holds? && main.vault.root != root) {
        phase := FailedToOpen;
        return;
      }
      if !main.Holds? {
        main := Holds(Vault(nextVault, root, origin));
        nextVault := nextVault + 1;
      }
      bridge := Some(main.vault);
      phase := Unlocked;
    }

    method Start(answers: bool, opens: bool)
      modifies this
      ensures View() == Started(old(View()), answers, opens)
    {
      if phase.Unlocked? {
        return;
      }
      if !configured {
        phase := FailedToOpen;
        return;
      }
      if !answers {
        phase := KeychainUnavailable;
        return;
      }
      if stored.None? {
        phase := if main.Nothing? then FirstRun else KeyMissing;
        return;
      }
      Open(stored.value, Empty, opens);
    }

    method CreateVault(random: bool, stores: bool, opens: bool)
      modifies this
      ensures View() == Created(old(View()), random, stores, opens)
    {
      if !phase.FirstRun? {
        return;
      }
      if !random || !stores {
        phase := FailedToOpen;
        return;
      }
      var root := nextRoot;
      nextRoot := nextRoot + 1;
      stored := Some(root);
      Open(root, Empty, opens);
    }

    method AdoptPairing(root: Root, sized: bool, stores: bool, opens: bool)
      modifies this
      ensures View() == Adopted(old(View()), root, sized, stores, opens)
    {
      if phase.Unlocked? {
        return;
      }
      if !sized || !stores {
        phase := FailedToOpen;
        return;
      }
      stored, nextRoot := Some(root), Max(nextRoot, root + 1);
      Open(root, Paired, opens);
    }

    method Lock()
      modifies this
      ensures View() == LockedOut(old(View()))
    {
      bridge := None;
      phase := LockedByUser;
    }

    /** `restoreAccount`, up to the recovery. */
    method BeginRestore(relay: bool, stamp: nat, moves: bool, random: bool)
      modifies this
      ensures View() == RestoreBegun(old(View()), relay, stamp, moves, random)
    {
      if (!phase.FirstRun? && !phase.KeyMissing?) || !relay {
        return;
      }
      if !main.Nothing? && (!moves || stamp in asides) {
        return;
      }
      var aside: Option<nat> := None;
      if !main.Nothing? {
        asides := asides[stamp := main];
        aside := Some(stamp);
      }
      main := Nothing;
      if !random {
        return;
      }
      restoring := Some(Restore(nextRoot, aside));
      nextRoot := nextRoot + 1;
    }

    /** `restoreAccount`, from the recovery's answer on. */
    method EndRestore(outcome: Recovery, stores: bool, opens: bool, removes: bool, moves: bool)
      requires restoring.Some?
      modifies this
      ensures View() == RestoreEnded(old(View()), outcome, stores, opens, removes, moves)
    {
      var restore := restoring.value;
      restoring := None;
      if !main.Holds? {
        if !outcome.RefusedLeaving? {
          main, nextVault := Holds(Vault(nextVault, restore.root, Replayed)), nextVault + 1;
        } else if outcome.scraps {
          main := Scraps;
        }
      }
      if outcome.RefusedLeaving? {
        if !main.Nothing? && !removes {
          return;
        }
        main := Nothing;
        if restore.aside.Some? && restore.aside.value in asides && moves {
          main := asides[restore.aside.value];
          asides := asides - {restore.aside.value};
        }
        return;
      }
      if stores {
        stored := Some(restore.root);
        Open(restore.root, Empty, opens);
      }
    }
  }
}
