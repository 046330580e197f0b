/** The secret is never lost, and the move is finished by any run that is left
    alone (apps/apple/Sunrise/Identity/KeychainMigration.swift:110-344). */
module MigrationSafety {
  import opened Wrappers
  import opened KeychainErrors
  import opened Keychain
  import opened Migration

  ghost predicate NothingVanishes(hook: Hook) {
    forall s :: !hook(s).Vanish?
  }

  function Undisturbed(): Hook {
    (s: Step) => Proceed
  }

  // ---- What one run may change ----

  /** From `k` to `m` the destination only gains the source's bytes, the source
      only loses bytes the destination then holds, and the item at `a`, if it is
      neither, does not change. */
  ghost predicate Moves(k: Keys, m: Keys, source: Item, destination: Item, a: Address) {
    && m.distinct == k.distinct && m.entitled == k.entitled
    && (m.Holds(destination) == k.Holds(destination)
        || (k.Holds(destination).None? && m.Holds(destination) == k.Holds(source)))
    && (m.Holds(source) == k.Holds(source)
        || (m.Holds(source).None? && m.Holds(destination) == k.Holds(source)))
    && (a != k.At(source) && a != k.At(destination) ==> m.Bytes(a) == k.Bytes(a))
  }

  lemma OneItemIff(k: Keys, a: Item, b: Item)
    ensures OneItem(k, a, b) <==> k.At(a) == k.At(b)
  {}

  lemma {:induction false} VerifyMoves(k: Keys, source: Item, destination: Item, secret: Data, hook: Hook, a: Address)
    requires NothingVanishes(hook) && !OneItem(k, source, destination) && k.Holds(source) == Some(secret)
    ensures Moves(k, VerifyAndDelete(k, source, destination, secret, hook).keys, source, destination, a)
  {}

  lemma WritingMoves(k: Keys, source: Item, destination: Item, secret: Data, a: Address)
    requires !OneItem(k, source, destination) && k.Holds(source) == Some(secret)
    requires k.Reachable(destination) ==> k.Holds(destination).None?
    ensures Moves(k, Write(k, destination, secret).keys, source, destination, a)
    ensures Write(k, destination, secret).keys.Holds(source) == Some(secret)
  {
    OneItemIff(k, source, destination);
    var m := Write(k, destination, secret).keys;
    assert m.items == k.items || (k.Holds(destination).None? && m.items == k.Put(destination, secret).items);
  }

  lemma {:induction false} CopyMoves(k: Keys, source: Item, destination: Item, secret: Data, hook: Hook, a: Address)
    requires NothingVanishes(hook) && !OneItem(k, source, destination) && k.Holds(source) == Some(secret)
    requires k.Reachable(destination) ==> k.Holds(destination).None?
    ensures Moves(k, CopyOver(k, source, destination, secret, hook).keys, source, destination, a)
  {
    var written := Write(k, destination, secret);
    WritingMoves(k, source, destination, secret, a);
    if written.result.Ok? {
      VerifyMoves(written.keys, source, destination, secret, hook, a);
    }
  }

  lemma {:induction false} SourceMoves(k: Keys, source: Item, destination: Item, alreadyThere: Option<Data>, hook: Hook, a: Address)
    requires NothingVanishes(hook) && !OneItem(k, source, destination)
    requires alreadyThere.None? && k.Reachable(destination) ==> k.Holds(destination).None?
    ensures Moves(k, MoveSource(k, source, destination, alreadyThere, hook).keys, source, destination, a)
  {
    var from := Read(k, source);
    if from.result.Ok? && from.result.value.Some? {
      var secret := from.result.value.value;
      if alreadyThere.Some? {
        VerifyMoves(from.keys, source, destination, secret, hook, a);
      } else {
        CopyMoves(from.keys, source, destination, secret, hook, a);
      }
    }
  }

  lemma {:induction false} MigrateMoves(k: Keys, source: Item, destination: Item, hook: Hook, a: Address)
    requires NothingVanishes(hook) && !OneItem(k, source, destination)
    ensures Moves(k, Migrate(k, source, destination, hook).keys, source, destination, a)
  {
    var there := Read(k, destination);
    if !hook(ReadDestination).Kill? && there.result.Ok? {
      SourceMoves(there.keys, source, destination, there.result.value, hook, a);
    }
  }

  lemma {:induction false} RunMoves(k: Keys, source: Item, destination: Item, hook: Hook, a: Address)
    requires NothingVanishes(hook)
    ensures Moves(k, Run(k, source, destination, hook).keys, source, destination, a)
  {
    if !OneItem(k, source, destination) {
      MigrateMoves(k, source, destination, hook, a);
      FallingBackKeepsItems(Migrate(k, source, destination, hook), source);
    }
  }

  lemma FallingBackKeepsItems(ran: Ran, source: Item)
    ensures var m := FallBack(ran, source).keys;
            m.items == ran.keys.items && m.distinct == ran.keys.distinct && m.entitled == ran.keys.entitled
  {}

  lemma {:induction false} RaisingKeepsBytes(k: Keys, item: Item)
    ensures RaiseClass(k, item).keys.distinct == k.distinct && RaiseClass(k, item).keys.entitled == k.entitled
    ensures forall a :: RaiseClass(k, item).keys.Bytes(a) == k.Bytes(a)
  {}

  lemma {:induction false} LoadMoves(k: Keys, source: Item, destination: Item, hook: Hook, a: Address)
    requires NothingVanishes(hook)
    ensures Moves(k, LoadMigratingIfNeeded(k, source, destination, hook).keys, source, destination, a)
  {
    RunMoves(k, source, destination, hook, a);
    var m := Run(k, source, destination, hook).keys;
    RaisingKeepsBytes(m, destination);
    var r := RaiseClass(m, destination).keys;
    ReadingAcrossKeepsItems(r, destination);
  }

  lemma ReadingAcrossKeepsItems(k: Keys, item: Item)
    ensures var m := ReadAcrossDomains(k, item).keys;
            m.items == k.items && m.distinct == k.distinct && m.entitled == k.entitled
  {}

  // ---- Any number of launches ----

  /** One process: killed before some step or not, its calls answered as the script says. */
  datatype Launch = Launch(hook: Hook, script: seq<Answer>)

  function Launches(k: Keys, source: Item, destination: Item, launches: seq<Launch>): Keys
    decreases |launches|
  {
    if launches == [] then k
    else
      var started := k.(script := launches[0].script);
      Launches(LoadMigratingIfNeeded(started, source, destination, launches[0].hook).keys, source, destination, launches[1..])
  }

  ghost predicate Readable(k: Keys, source: Item, destination: Item, secret: Data) {
    k.Holds(source) == Some(secret) || k.Holds(destination) == Some(secret)
  }

  /** A secret in either place is in one of them after any launches, each killed
      anywhere or refused anything. */
  lemma {:induction false} TheSecretIsNeverLost(k: Keys, source: Item, destination: Item, launches: seq<Launch>, secret: Data)
    requires Readable(k, source, destination, secret)
    requires forall l | l in launches :: NothingVanishes(l.hook)
    ensures Readable(Launches(k, source, destination, launches), source, destination, secret)
    decreases |launches|
  {
    if launches != [] {
      assert launches[0] in launches;
      var started := k.(script := launches[0].script);
      LoadMoves(started, source, destination, launches[0].hook, k.At(source));
      TheSecretIsNeverLost(LoadMigratingIfNeeded(started, source, destination, launches[0].hook).keys,
                           source, destination, launches[1..], secret);
    }
  }

  /** Nothing else in the Keychain is touched, and no bytes are ever invented. */
  lemma {:induction false} NothingElseChanges(k: Keys, source: Item, destination: Item, launches: seq<Launch>, a: Address)
    requires forall l | l in launches :: NothingVanishes(l.hook)
    ensures Moves(k, Launches(k, source, destination, launches), source, destination, a)
    decreases |launches|
  {
    if launches != [] {
      assert launches[0] in launches;
      var started := k.(script := launches[0].script);
      LoadMoves(started, source, destination, launches[0].hook, a);
      NothingElseChanges(LoadMigratingIfNeeded(started, source, destination, launches[0].hook).keys,
                         source, destination, launches[1..], a);
    }
  }

  ghost predicate Finished(k: Keys, source: Item, destination: Item, secret: Data) {
    k.Holds(destination) == Some(secret) && (!OneItem(k, source, destination) ==> k.Holds(source).None?)
  }

  lemma {:induction false} AnUndisturbedRunFinishes(k: Keys, source: Item, destination: Item, secret: Data)
    requires k.script == [] && k.Reachable(source) && k.Reachable(destination)
    requires Readable(k, source, destination, secret)
    requires k.Holds(source) in {None, Some(secret)} && k.Holds(destination) in {None, Some(secret)}
    ensures Run(k, source, destination, Undisturbed()).result == Ok(Some(secret))
    ensures Finished(Run(k, source, destination, Undisturbed()).keys, source, destination, secret)
  {
    OneItemIff(k, source, destination);
  }

  /** Whatever interrupted the launches before it, one run that is left alone
      ends with the destination holding the secret and the source empty. */
  lemma {:induction false} OneQuietRunFinishesTheMove(k: Keys, source: Item, destination: Item, launches: seq<Launch>, secret: Data)
    requires k.Reachable(source) && k.Reachable(destination)
    requires Readable(k, source, destination, secret)
    requires k.Holds(source) in {None, Some(secret)} && k.Holds(destination) in {None, Some(secret)}
    requires forall l | l in launches :: NothingVanishes(l.hook)
    ensures var quiet := Run(Launches(k, source, destination, launches).(script := []), source, destination, Undisturbed());
            quiet.result == Ok(Some(secret)) && Finished(quiet.keys, source, destination, secret)
  {
    TheSecretIsNeverLost(k, source, destination, launches, secret);
    NothingElseChanges(k, source, destination, launches, k.At(source));
    AnUndisturbedRunFinishes(Launches(k, source, destination, launches).(script := []), source, destination, secret);
  }

  // ---- Two secrets under one name ----

  /** A run stopped by disagreement: both copies were there, they differ, and neither was touched. */
  ghost predicate Disagreed(k: Keys, ran: Ran, source: Item, destination: Item) {
    ran.result == Err(Threw(MigrationUnverified)) ==>
      && k.Holds(source).Some? && k.Holds(destination).Some? && k.Holds(source) != k.Holds(destination)
      && ran.keys.items == k.items
  }

  lemma {:induction false} VerifyDisagrees(k: Keys, source: Item, destination: Item, secret: Data, hook: Hook)
    requires NothingVanishes(hook) && k.Holds(source) == Some(secret)
    ensures Disagreed(k, VerifyAndDelete(k, source, destination, secret, hook), source, destination)
  {}

  lemma {:induction false} CopyAgrees(k: Keys, source: Item, destination: Item, secret: Data, hook: Hook)
    requires NothingVanishes(hook) && k.At(source) != k.At(destination) && k.Holds(source) == Some(secret)
    ensures CopyOver(k, source, destination, secret, hook).result != Err(Threw(MigrationUnverified))
  {
    var written := Write(k, destination, secret);
    if written.result.Ok? {
      assert written.keys.Holds(destination) == Some(secret) && written.keys.Holds(source) == Some(secret);
      VerifyDisagrees(written.keys, source, destination, secret, hook);
    }
  }

  lemma {:induction false} SourceDisagrees(k: Keys, source: Item, destination: Item, alreadyThere: Option<Data>, hook: Hook)
    requires NothingVanishes(hook) && k.At(source) != k.At(destination)
    ensures Disagreed(k, MoveSource(k, source, destination, alreadyThere, hook), source, destination)
  {
    var from := Read(k, source);
    if from.result.Ok? && from.result.value.Some? {
      if alreadyThere.Some? {
        VerifyDisagrees(from.keys, source, destination, from.result.value.value, hook);
      } else {
        CopyAgrees(from.keys, source, destination, from.result.value.value, hook);
      }
    }
  }

  lemma {:induction false} MigrateDisagrees(k: Keys, source: Item, destination: Item, hook: Hook)
    requires NothingVanishes(hook) && k.At(source) != k.At(destination)
    ensures Disagreed(k, Migrate(k, source, destination, hook), source, destination)
  {
    var there := Read(k, destination);
    if !hook(ReadDestination).Kill? && there.result.Ok? {
      SourceDisagrees(there.keys, source, destination, there.result.value, hook);
    }
  }

  /** The one refusal that is not absorbed says exactly that both copies were
      read and differ, and then neither has been touched. */
  lemma {:induction false} UnverifiedMeansTwoSecrets(k: Keys, source: Item, destination: Item, hook: Hook)
    requires NothingVanishes(hook)
    requires Run(k, source, destination, hook).result == Err(Threw(MigrationUnverified))
    ensures k.Holds(source).Some? && k.Holds(destination).Some? && k.Holds(source) != k.Holds(destination)
    ensures Run(k, source, destination, hook).keys.items == k.items
  {
    OneItemIff(k, source, destination);
    if !OneItem(k, source, destination) {
      MigrateDisagrees(k, source, destination, hook);
      OnlyMigratingDisagrees(Migrate(k, source, destination, hook), source);
    }
  }

  lemma OnlyMigratingDisagrees(ran: Ran, source: Item)
    requires FallBack(ran, source).result == Err(Threw(MigrationUnverified))
    ensures FallBack(ran, source) == ran
  {}

  lemma {:induction false} AQuietRunIsUnverifiedIff(k: Keys, source: Item, destination: Item)
    requires k.script == [] && k.Reachable(source) && k.Reachable(destination)
    ensures Run(k, source, destination, Undisturbed()).result == Err(Threw(MigrationUnverified))
        <==> k.Holds(source).Some? && k.Holds(destination).Some? && k.Holds(source) != k.Holds(destination)
  {
    OneItemIff(k, source, destination);
    if k.Holds(source).Some? {
      var secret := k.Holds(source).value;
      if k.Holds(destination) in {None, Some(secret)} {
        AnUndisturbedRunFinishes(k, source, destination, secret);
      }
    }
  }

  // ---- A destination that goes missing ----

  /** What the script answers to the call after `i` others. */
  function Reply(k: Keys, i: nat): Answer {
    if i < |k.script| then k.script[i] else Answers
  }

  /** A read that finds what is there: not refused, and not garbled if anything is. */
  predicate Tells(k: Keys, i: nat, held: Option<Data>) {
    Reply(k, i).Answers? || (Reply(k, i).Garbled? && held.None?)
  }

  predicate Allows(k: Keys, i: nat) {
    !Reply(k, i).Refuses?
  }

  /** `m` is `k` after `calls` more calls: the same stores, and the rest of the script. */
  ghost predicate Later(k: Keys, m: Keys, calls: nat) {
    && m.distinct == k.distinct && m.entitled == k.entitled
    && forall i: nat :: Reply(m, i) == Reply(k, calls + i)
  }

  /** The verification finds the secret, the destination's item goes, and the source is deleted all the same. */
  predicate VerifyLoses(k: Keys, destination: Item, secret: Data, hook: Hook) {
    && hook(Verify).Proceed? && k.Holds(destination) == Some(secret) && Tells(k, 0, Some(secret))
    && hook(DeleteSource).Vanish? && Allows(k, 1)
  }

  ghost predicate Lost(m: Keys, source: Item, destination: Item, secret: Data) {
    !Readable(m, source, destination, secret)
  }

  lemma ReadingOn(k: Keys, item: Item)
    requires k.Reachable(item)
    ensures var read := Read(k, item);
            && Later(k, read.keys, 1) && read.keys.items == k.items
            && (read.result.Ok? <==> Tells(k, 0, k.Holds(item)))
            && (read.result.Ok? ==> read.result.value == k.Holds(item))
  {}

  lemma WritingOn(k: Keys, source: Item, destination: Item, secret: Data)
    requires k.Reachable(destination) && k.Holds(destination).None?
    requires k.At(source) != k.At(destination) && k.Holds(source) == Some(secret)
    ensures var written := Write(k, destination, secret);
            && written.keys.Holds(source) == Some(secret)
            && (written.result.Ok? <==> Allows(k, 0) && Allows(k, 1))
            && (written.result.Ok? ==> Later(k, written.keys, 2) && written.keys.Holds(destination) == Some(secret))
  {}

  lemma {:induction false} VerifyLosesIff(k: Keys, source: Item, destination: Item, secret: Data, hook: Hook)
    requires k.At(source) != k.At(destination) && k.Holds(source) == Some(secret)
    requires k.Reachable(source) && k.Reachable(destination)
    ensures Lost(VerifyAndDelete(k, source, destination, secret, hook).keys, source, destination, secret)
        <==> VerifyLoses(k, destination, secret, hook)
  {
    var before := Before(k, destination, hook(Verify));
    ReadingOn(before, destination);
    var verified := Read(before, destination);
    if !hook(Verify).Kill? && verified.result == Ok(Some(secret)) && !hook(DeleteSource).Kill? {
      DeletingLosesIff(verified.keys, source, destination, secret, hook);
    }
  }

  lemma {:induction false} DeletingLosesIff(k: Keys, source: Item, destination: Item, secret: Data, hook: Hook)
    requires k.At(source) != k.At(destination) && k.Reachable(source)
    requires k.Holds(source) == Some(secret) && k.Holds(destination) == Some(secret)
    ensures Lost(Delete(Before(k, destination, hook(DeleteSource)), source).keys, source, destination, secret)
        <==> hook(DeleteSource).Vanish? && Allows(k, 0)
  {}

  predicate CopyLoses(k: Keys, hook: Hook) {
    && !hook(WriteDestination).Kill? && Allows(k, 0) && Allows(k, 1)
    && hook(Verify).Proceed? && Reply(k, 2).Answers?
    && hook(DeleteSource).Vanish? && Allows(k, 3)
  }

  lemma {:induction false} CopyLosesIff(k: Keys, source: Item, destination: Item, secret: Data, hook: Hook)
    requires k.At(source) != k.At(destination) && k.Holds(source) == Some(secret) && k.Holds(destination).None?
    requires k.Reachable(source) && k.Reachable(destination)
    ensures Lost(CopyOver(k, source, destination, secret, hook).keys, source, destination, secret) <==> CopyLoses(k, hook)
  {
    var before := Before(k, destination, hook(WriteDestination));
    WritingOn(before, source, destination, secret);
    var written := Write(before, destination, secret);
    if !hook(WriteDestination).Kill? && written.result.Ok? {
      assert Later(k, written.keys, 2);
      VerifyLosesIff(written.keys, source, destination, secret, hook);
    }
  }

  /** With `there` read and `calls` made, the hook and the script lose the secret. */
  predicate MoveLoses(k: Keys, calls: nat, there: Option<Data>, secret: Data, hook: Hook) {
    && !hook(ReadSource).Kill? && Tells(k, calls, Some(secret))
    && (if there.Some?
        then there == Some(secret) && !hook(ReadSource).Vanish?
             && Reply(k, calls + 1).Answers? && Allows(k, calls + 2)
        else !hook(WriteDestination).Kill? && Allows(k, calls + 1) && Allows(k, calls + 2)
             && Reply(k, calls + 3).Answers? && Allows(k, calls + 4))
    && hook(Verify).Proceed? && hook(DeleteSource).Vanish?
  }

  /** The hook, the script and what is there decide whether the secret is lost. */
  predicate Loses(k: Keys, source: Item, destination: Item, secret: Data, hook: Hook) {
    var there := if hook(ReadDestination).Vanish? then None else k.Holds(destination);
    && k.Reachable(source) && k.Reachable(destination)
    && !hook(ReadDestination).Kill? && Tells(k, 0, there)
    && MoveLoses(k, 1, there, secret, hook)
  }

  /** Another process may delete the destination's item before any step, any
      number of times: the secret is lost exactly when it does so between the
      verification and a deletion of the source that goes through, in a run that
      is not killed or refused before that and finds no other secret in its way. */
  lemma {:induction false} LostExactlyIf(k: Keys, source: Item, destination: Item, hook: Hook, secret: Data)
    requires !OneItem(k, source, destination) && k.Holds(source) == Some(secret)
    ensures Lost(Run(k, source, destination, hook).keys, source, destination, secret)
        <==> Loses(k, source, destination, secret, hook)
  {
    OneItemIff(k, source, destination);
    FallingBackKeepsItems(Migrate(k, source, destination, hook), source);
    if k.Reachable(source) && k.Reachable(destination) {
      MigrateLosesIff(k, source, destination, secret, hook);
    } else {
      OutOfReachNothingIsLost(k, source, destination, secret, hook);
    }
  }

  lemma {:induction false} MigrateLosesIff(k: Keys, source: Item, destination: Item, secret: Data, hook: Hook)
    requires k.At(source) != k.At(destination) && k.Holds(source) == Some(secret)
    requires k.Reachable(source) && k.Reachable(destination)
    ensures Lost(Migrate(k, source, destination, hook).keys, source, destination, secret)
        <==> Loses(k, source, destination, secret, hook)
  {
    var before := Before(k, destination, hook(ReadDestination));
    ReadingOn(before, destination);
    var there := Read(before, destination);
    if !hook(ReadDestination).Kill? && there.result.Ok? {
      assert there.keys.Holds(source) == Some(secret);
      assert there.keys.Holds(destination) == if hook(ReadDestination).Vanish? then None else k.Holds(destination);
      MoveLosesIff(there.keys, source, destination, secret, hook);
      MoveLosesLater(k, there.keys, there.result.value, secret, hook);
    } else {
      assert !Loses(k, source, destination, secret, hook);
      assert before.Holds(source) == Some(secret);
    }
  }

  lemma {:induction false} MoveLosesLater(k: Keys, m: Keys, there: Option<Data>, secret: Data, hook: Hook)
    requires Later(k, m, 1)
    ensures MoveLoses(k, 1, there, secret, hook) <==> MoveLoses(m, 0, there, secret, hook)
  {
    assert Reply(m, 0) == Reply(k, 1) && Reply(m, 1) == Reply(k, 2) && Reply(m, 2) == Reply(k, 3);
    assert Reply(m, 3) == Reply(k, 4) && Reply(m, 4) == Reply(k, 5);
  }

  lemma {:induction false} MoveLosesIff(k: Keys, source: Item, destination: Item, secret: Data, hook: Hook)
    requires k.At(source) != k.At(destination) && k.Holds(source) == Some(secret)
    requires k.Reachable(source) && k.Reachable(destination)
    ensures Lost(MoveSource(k, source, destination, k.Holds(destination), hook).keys, source, destination, secret)
        <==> MoveLoses(k, 0, k.Holds(destination), secret, hook)
  {
    var before := Before(k, destination, hook(ReadSource));
    ReadingOn(before, source);
    var from := Read(before, source);
    assert from.keys.Holds(source) == Some(secret);
    assert from.keys.Holds(destination) == if hook(ReadSource).Vanish? then None else k.Holds(destination);
    if !hook(ReadSource).Kill? && from.result.Ok? {
      assert Reply(from.keys, 0) == Reply(k, 1) && Reply(from.keys, 1) == Reply(k, 2);
      assert Reply(from.keys, 2) == Reply(k, 3) && Reply(from.keys, 3) == Reply(k, 4);
      if k.Holds(destination).Some? {
        VerifyLosesIff(from.keys, source, destination, secret, hook);
      } else {
        CopyLosesIff(from.keys, source, destination, secret, hook);
      }
    }
  }

  lemma {:induction false} OutOfReachNothingIsLost(k: Keys, source: Item, destination: Item, secret: Data, hook: Hook)
    requires k.At(source) != k.At(destination) && k.Holds(source) == Some(secret)
    requires !k.Reachable(source) || !k.Reachable(destination)
    ensures Migrate(k, source, destination, hook).keys.Holds(source) == Some(secret)
  {
    var before := Before(k, destination, hook(ReadDestination));
    var there := Read(before, destination);
    assert there.keys.Holds(source) == Some(secret);
    if !hook(ReadDestination).Kill? && there.result.Ok? && !hook(ReadSource).Kill? {
      var again := Before(there.keys, destination, hook(ReadSource));
      assert Read(again, source).keys.Holds(source) == Some(secret);
      assert !k.Reachable(destination) ==> there.result.value.None?;
    }
  }

  /** And such a run there is: nothing refused, nothing killed, one deletion at the wrong moment. */
  lemma {:induction false} TheSecretCanBeLost(name: string, secret: Data)
    ensures var source, destination := Item(name, AfterFirstUnlock, Login), Item(name, AfterFirstUnlock, DataProtection);
            var k := Keys(map[Address(name, Login) := Stored(secret, None)], true, true, []);
            var hook := (s: Step) => if s.DeleteSource? then Vanish else Proceed;
            && k.Holds(source) == Some(secret) && Run(k, source, destination, hook).result == Ok(Some(secret))
            && Run(k, source, destination, hook).keys.items == map[]
  {
    var source, destination := Item(name, AfterFirstUnlock, Login), Item(name, AfterFirstUnlock, DataProtection);
    var k := Keys(map[Address(name, Login) := Stored(secret, None)], true, true, []);
    var hook := (s: Step) => if s.DeleteSource? then Vanish else Proceed;
    LostExactlyIf(k, source, destination, hook, secret);
    var both := k.Put(destination, secret);
    assert both.Without(destination).items == k.items && k.Without(source).items == map[];
    assert CopyOver(k, source, destination, secret, hook).keys == k.Without(source);
  }

  /** Answered with the secret, or stopped by a Keychain error with the source still there to answer. */
  ghost predicate AnswersOrLeaves(ran: Ran, source: Item, secret: Data) {
    || ran.result == Ok(Some(secret))
    || (ran.result == Err(Threw(Unexpected(NotFound))) && ran.keys.script == [] && ran.keys.Reachable(source)
        && ran.keys.Holds(source) == Some(secret))
  }

  /** Calls that are all answered, the secret in the source, and nothing else in the destination. */
  ghost predicate Quiet(k: Keys, source: Item, destination: Item, secret: Data) {
    && k.script == [] && k.Reachable(source) && k.Reachable(destination)
    && k.At(source) != k.At(destination)
    && k.Holds(source) == Some(secret) && k.Holds(destination) in {None, Some(secret)}
  }

  lemma VanishingStaysQuiet(k: Keys, source: Item, destination: Item, secret: Data, event: Event)
    requires Quiet(k, source, destination, secret)
    ensures Quiet(Before(k, destination, event), source, destination, secret)
  {}

  lemma {:induction false} VerifyAnswersOrLeaves(k: Keys, source: Item, destination: Item, secret: Data, hook: Hook)
    requires Quiet(k, source, destination, secret) && forall s :: !hook(s).Kill?
    ensures AnswersOrLeaves(VerifyAndDelete(k, source, destination, secret, hook), source, secret)
  {
    VanishingStaysQuiet(k, source, destination, secret, hook(Verify));
    VanishingStaysQuiet(Before(k, destination, hook(Verify)), source, destination, secret, hook(DeleteSource));
  }

  lemma {:induction false} CopyAnswersOrLeaves(k: Keys, source: Item, destination: Item, secret: Data, hook: Hook)
    requires Quiet(k, source, destination, secret) && forall s :: !hook(s).Kill?
    ensures AnswersOrLeaves(CopyOver(k, source, destination, secret, hook), source, secret)
  {
    var before := Before(k, destination, hook(WriteDestination));
    VanishingStaysQuiet(k, source, destination, secret, hook(WriteDestination));
    var written := Write(before, destination, secret);
    assert Quiet(written.keys, source, destination, secret);
    VerifyAnswersOrLeaves(written.keys, source, destination, secret, hook);
  }

  lemma {:induction false} MoveAnswersOrLeaves(k: Keys, source: Item, destination: Item, alreadyThere: Option<Data>,
                                               secret: Data, hook: Hook)
    requires Quiet(k, source, destination, secret) && forall s :: !hook(s).Kill?
    ensures AnswersOrLeaves(MoveSource(k, source, destination, alreadyThere, hook), source, secret)
  {
    var before := Before(k, destination, hook(ReadSource));
    VanishingStaysQuiet(k, source, destination, secret, hook(ReadSource));
    assert Read(before, source) == Did(before, Ok(Some(secret)));
    if alreadyThere.Some? {
      VerifyAnswersOrLeaves(before, source, destination, secret, hook);
    } else {
      CopyAnswersOrLeaves(before, source, destination, secret, hook);
    }
  }

  lemma {:induction false} MigrateAnswersOrLeaves(k: Keys, source: Item, destination: Item, secret: Data, hook: Hook)
    requires Quiet(k, source, destination, secret) && forall s :: !hook(s).Kill?
    ensures AnswersOrLeaves(Migrate(k, source, destination, hook), source, secret)
  {
    var before := Before(k, destination, hook(ReadDestination));
    VanishingStaysQuiet(k, source, destination, secret, hook(ReadDestination));
    var there := Read(before, destination);
    assert there == Did(before, Ok(before.Holds(destination)));
    MoveAnswersOrLeaves(before, source, destination, there.result.value, secret, hook);
  }

  /** However often the destination's item is deleted under a run, the run still
      answers with the secret. */
  lemma {:induction false} AVanishedDestinationIsRescued(k: Keys, source: Item, destination: Item, hook: Hook, secret: Data)
    requires !OneItem(k, source, destination) && k.Holds(source) == Some(secret)
    requires k.script == [] && k.Reachable(source) && k.Reachable(destination)
    requires k.Holds(destination) in {None, Some(secret)} && forall s :: !hook(s).Kill?
    ensures Run(k, source, destination, hook).result == Ok(Some(secret))
  {
    OneItemIff(k, source, destination);
    MigrateAnswersOrLeaves(k, source, destination, secret, hook);
    FallingBackAnswers(Migrate(k, source, destination, hook), source, secret);
  }

  lemma FallingBackAnswers(ran: Ran, source: Item, secret: Data)
    requires AnswersOrLeaves(ran, source, secret)
    ensures FallBack(ran, source).result == Ok(Some(secret))
  {}
}
