/** What a store's load, save and clear say about what is stored
    (apps/apple/Sunrise/Identity/KeychainMigration.swift:262-284,
    Keychain.swift: readAcrossDomains, writeAcrossDomains, deleteAcrossDomains). */
module MigrationAnswers {
  import opened Wrappers
  import opened KeychainErrors
  import opened Keychain
  import opened Migration
  import opened MigrationSafety

  /** Bytes that are answered were stored, `nothing` means the source has
      nothing, and a run that fails leaves the source as it was. */
  ghost predicate Honest(k: Keys, ran: Ran, source: Item, destination: Item) {
    match ran.result
    case Ok(Some(secret)) => Readable(k, source, destination, secret)
    case Ok(None) => (k.Reachable(source) ==> k.Holds(source).None?) && ran.keys.Holds(source) == k.Holds(source)
    case Err(_) => ran.keys.Holds(source) == k.Holds(source)
  }

  lemma {:induction false} VerifyIsHonest(k: Keys, source: Item, destination: Item, secret: Data, hook: Hook)
    requires NothingVanishes(hook) && k.At(source) != k.At(destination) && k.Holds(source) == Some(secret)
    ensures Honest(k, VerifyAndDelete(k, source, destination, secret, hook), source, destination)
    ensures VerifyAndDelete(k, source, destination, secret, hook).result != Ok(None)
  {}

  lemma {:induction false} CopyIsHonest(k: Keys, source: Item, destination: Item, secret: Data, hook: Hook)
    requires NothingVanishes(hook) && k.At(source) != k.At(destination) && k.Holds(source) == Some(secret)
    ensures Honest(k, CopyOver(k, source, destination, secret, hook), source, destination)
  {
    var written := Write(k, destination, secret);
    assert written.keys.Holds(source) == Some(secret);
    if written.result.Ok? {
      VerifyIsHonest(written.keys, source, destination, secret, hook);
      VerifyAnswersOnlyTheSecret(written.keys, source, destination, secret, hook);
    }
  }

  lemma VerifyAnswersOnlyTheSecret(k: Keys, source: Item, destination: Item, secret: Data, hook: Hook)
    ensures var r := VerifyAndDelete(k, source, destination, secret, hook).result; r.Ok? ==> r == Ok(Some(secret))
  {}

  lemma {:induction false} MoveIsHonest(k: Keys, source: Item, destination: Item, alreadyThere: Option<Data>, hook: Hook)
    requires NothingVanishes(hook) && k.At(source) != k.At(destination)
    requires alreadyThere.Some? ==> k.Holds(destination) == alreadyThere
    ensures Honest(k, MoveSource(k, source, destination, alreadyThere, hook), source, destination)
  {
    var from := Read(k, source);
    if from.result.Ok? && from.result.value.Some? {
      if alreadyThere.Some? {
        VerifyIsHonest(from.keys, source, destination, from.result.value.value, hook);
      } else {
        CopyIsHonest(from.keys, source, destination, from.result.value.value, hook);
      }
    }
  }

  lemma {:induction false} MigrateIsHonest(k: Keys, source: Item, destination: Item, hook: Hook)
    requires NothingVanishes(hook) && k.At(source) != k.At(destination)
    ensures Honest(k, Migrate(k, source, destination, hook), source, destination)
  {
    var there := Read(k, destination);
    if !hook(ReadDestination).Kill? && there.result.Ok? {
      MoveIsHonest(there.keys, source, destination, there.result.value, hook);
    }
  }

  lemma FallingBackIsHonest(k: Keys, ran: Ran, source: Item, destination: Item)
    requires Honest(k, ran, source, destination)
    requires ran.keys.distinct == k.distinct && ran.keys.entitled == k.entitled
    ensures Honest(k, FallBack(ran, source), source, destination)
  {}

  lemma {:induction false} RunIsHonest(k: Keys, source: Item, destination: Item, hook: Hook)
    requires NothingVanishes(hook)
    ensures Honest(k, Run(k, source, destination, hook), source, destination)
  {
    OneItemIff(k, source, destination);
    if !OneItem(k, source, destination) {
      MigrateIsHonest(k, source, destination, hook);
      MigrateMoves(k, source, destination, hook, k.At(source));
      FallingBackIsHonest(k, Migrate(k, source, destination, hook), source, destination);
    }
  }

  /** A cross-domain read answers what one of the two places holds, and `nothing` only of two empty ones. */
  lemma {:induction false} ReadingAcrossIsHonest(k: Keys, item: Item)
    ensures match ReadAcrossDomains(k, item).result
            case Ok(Some(secret)) => k.Holds(item) == Some(secret) || k.Holds(item.InOtherDomain()) == Some(secret)
            case Ok(None) => && (k.Reachable(item) ==> k.Holds(item).None?)
                             && (k.distinct && k.Reachable(item.InOtherDomain()) ==> k.Holds(item.InOtherDomain()).None?)
            case Err(_) => true
  {}

  /** "No item" means a first run, so it is only ever said when every place this
      build can reach is empty, whatever was refused or killed on the way. */
  lemma {:induction false} NothingIsSaidOnlyOfNothing(k: Keys, source: Item, destination: Item, hook: Hook)
    requires NothingVanishes(hook)
    requires LoadMigratingIfNeeded(k, source, destination, hook).result == Ok(None)
    ensures k.Reachable(source) ==> k.Holds(source).None?
    ensures k.Reachable(destination) ==> k.Holds(destination).None?
    ensures k.distinct && k.Reachable(destination.InOtherDomain()) ==> k.Holds(destination.InOtherDomain()).None?
  {
    var other := destination.InOtherDomain();
    RunIsHonest(k, source, destination, hook);
    RunMoves(k, source, destination, hook, k.At(other));
    var run := Run(k, source, destination, hook);
    RaisingKeepsBytes(run.keys, destination);
    var raised := RaiseClass(run.keys, destination);
    LoadedFrom(run, destination);
    ReadingAcrossIsHonest(raised.keys, destination);
  }

  /** A load that answers is a run that answered and a cross-domain read, or the run's own bytes. */
  lemma LoadedFrom(run: Ran, destination: Item)
    requires run.result.Ok?
    ensures var raised := RaiseClass(run.keys, destination);
            var read := ReadAcrossDomains(raised.keys, destination);
            var answer := if raised.result.Err? then Rescue(raised.keys, raised.result.error, run.result.value)
                          else if read.result.Err? then Rescue(read.keys, read.result.error, run.result.value)
                          else Ran(read.keys, Ok(if read.result.value.Some? then read.result.value else run.result.value));
            (answer.result == Ok(None) ==> run.result == Ok(None) && raised.result.Ok? && read.result == Ok(None))
            && (answer.result.Ok? && answer.result.value.Some? ==>
                  answer.result == run.result || (raised.result.Ok? && read.result == Ok(answer.result.value)))
  {}

  /** Whatever a load answers with was stored in one of the three places when it began. */
  lemma {:induction false} WhatIsLoadedWasStored(k: Keys, source: Item, destination: Item, hook: Hook)
    requires NothingVanishes(hook)
    requires LoadMigratingIfNeeded(k, source, destination, hook).result.Ok?
    ensures match LoadMigratingIfNeeded(k, source, destination, hook).result.value
            case Some(secret) => Readable(k, source, destination, secret) || k.Holds(destination.InOtherDomain()) == Some(secret)
            case None => true
  {
    var other := destination.InOtherDomain();
    RunIsHonest(k, source, destination, hook);
    RunMoves(k, source, destination, hook, k.At(other));
    var run := Run(k, source, destination, hook);
    RaisingKeepsBytes(run.keys, destination);
    LoadedFrom(run, destination);
    ReadingAcrossIsHonest(RaiseClass(run.keys, destination).keys, destination);
  }

  // ---- Saving and clearing across the two keychains ----

  /** The item the last build kept: the same name in the login keychain. */
  function Former(destination: Item): Item {
    destination.(domain := Login)
  }

  /** What a store answers once nothing interrupts and nothing refuses. */
  function QuietLoad(k: Keys, destination: Item): Result<Option<Data>, Stop> {
    LoadMigratingIfNeeded(k.(script := []), Former(destination), destination, Undisturbed()).result
  }

  lemma {:induction false} QuietLoadOf(k: Keys, destination: Item)
    requires k.Reachable(destination)
    ensures var here, former := k.Holds(destination), k.Holds(Former(destination));
            QuietLoad(k, destination) ==
            if k.distinct && destination.domain.DataProtection? && here.Some? && former.Some? && here != former
            then Err(Threw(MigrationUnverified))
            else if here.Some? then Ok(here)
            else if former.Some? then Ok(former)
            else if k.distinct && k.Reachable(destination.InOtherDomain()) then Ok(k.Holds(destination.InOtherDomain()))
            else Ok(None)
  {
    var q, source := k.(script := []), Former(destination);
    OneItemIff(q, source, destination);
    var run := Run(q, source, destination, Undisturbed());
    if q.Holds(source).Some? && q.Holds(destination) in {None, q.Holds(source)} {
      AnUndisturbedRunFinishes(q, source, destination, q.Holds(source).value);
    }
    AQuietRunIsUnverifiedIff(q, source, destination);
    RaisingKeepsBytes(run.keys, destination);
  }

  /** A save that succeeds is what the next load answers, even over two secrets
      that disagreed: it is the repair for `migrationUnverified`. */
  lemma {:induction false} SavedIsLoaded(k: Keys, destination: Item, data: Data)
    requires WriteAcrossDomains(k, destination, data).result.Ok?
    ensures QuietLoad(WriteAcrossDomains(k, destination, data).keys, destination) == Ok(Some(data))
  {
    var here := Write(k, destination, data);
    assert here.result.Ok? && here.keys.Holds(destination) == Some(data);
    QuietLoadOf(WriteAcrossDomains(k, destination, data).keys, destination);
  }

  /** A save whose other half was refused is stored, and exactly when the copy
      it left behind differs the next load finds two secrets. */
  lemma {:induction false} HalfASaveIsADisagreementIff(k: Keys, destination: Item, data: Data)
    requires WriteAcrossDomains(k, destination, data).result.Err?
    requires WriteAcrossDomains(k, destination, data).result.error.WrittenButOtherDomainRefused?
    ensures QuietLoad(WriteAcrossDomains(k, destination, data).keys, destination)
         == if destination.domain.DataProtection? && k.Holds(Former(destination)) !in {None, Some(data)}
            then Err(Threw(MigrationUnverified))
            else Ok(Some(data))
  {
    var here := Write(k, destination, data);
    assert here.result.Ok? && here.keys.Holds(destination) == Some(data);
    QuietLoadOf(WriteAcrossDomains(k, destination, data).keys, destination);
  }

  /** A clear that succeeds leaves nothing for any later load to find. */
  lemma {:induction false} ClearedIsGone(k: Keys, destination: Item)
    requires DeleteAcrossDomains(k, destination).result.Ok?
    ensures QuietLoad(DeleteAcrossDomains(k, destination).keys, destination) == Ok(None)
  {
    var here := Delete(k, destination);
    assert here.result.Ok? && here.keys.Holds(destination).None?;
    QuietLoadOf(DeleteAcrossDomains(k, destination).keys, destination);
  }

  /** The deletion that takes the script's reply after `calls` others is refused. */
  predicate Declined(k: Keys, calls: nat, item: Item) {
    !k.Reachable(item) || Reply(k, calls).Refuses?
  }

  /** One store's refusal does not spare the other: each copy survives exactly its
      own store's, and what is thrown is this store's, or else the other's if it
      is one that could be reached. */
  lemma {:induction false} EachRefusalKeepsItsOwnCopy(k: Keys, destination: Item)
    requires k.distinct
    ensures var d, other := DeleteAcrossDomains(k, destination), destination.InOtherDomain();
            && d.keys.Holds(destination) == (if Declined(k, 0, destination) then k.Holds(destination) else None)
            && d.keys.Holds(other) == (if Declined(k, 1, other) then k.Holds(other) else None)
            && (d.result.Err? <==> Declined(k, 0, destination) || (k.Reachable(other) && Declined(k, 1, other)))
            && (Declined(k, 0, destination) ==> d.result == Delete(k, destination).result)
            && (!Declined(k, 0, destination) && d.result.Err? ==> d.result.error == Unexpected(Reply(k, 1).status))
  {
    var here, other := Delete(k, destination), destination.InOtherDomain();
    assert Reply(k, 0) == k.Next() && Reply(k, 1) == here.keys.Next();
    assert k.At(destination) != k.At(other) && here.keys.Holds(other) == k.Holds(other);
    assert here.result.Err? <==> Declined(k, 0, destination);
    assert Delete(here.keys, other).result.Err? <==> Declined(k, 1, other);
  }

  /** A load that is left alone never leaves the secret under another class than the build declares. */
  lemma {:induction false} LoadingRaisesTheClass(k: Keys, source: Item, destination: Item)
    requires k.script == [] && k.Reachable(destination)
    requires LoadMigratingIfNeeded(k, source, destination, Undisturbed()).result.Ok?
    ensures var m := LoadMigratingIfNeeded(k, source, destination, Undisturbed()).keys;
            m.At(destination) in m.items ==> m.items[m.At(destination)].accessibility in {None, Some(destination.accessibility)}
  {
    var run := Run(k, source, destination, Undisturbed());
    RunStaysScriptless(k, source, destination);
    Raised(run.keys, destination);
    ReadingAcrossKeepsItems(RaiseClass(run.keys, destination).keys, destination);
  }

  lemma RunStaysScriptless(k: Keys, source: Item, destination: Item)
    requires k.script == []
    ensures var m := Run(k, source, destination, Undisturbed()).keys;
            m.script == [] && m.distinct == k.distinct && m.entitled == k.entitled
  {}

  lemma Raised(k: Keys, item: Item)
    requires k.script == [] && k.Reachable(item)
    ensures var r := RaiseClass(k, item);
            && r.result.Ok?
            && (r.keys.At(item) in r.keys.items ==>
                  r.keys.items[r.keys.At(item)].accessibility in {None, Some(item.accessibility)})
  {}
}
