/** The move of one secret between keychains, as values
    (apps/apple/Sunrise/Identity/KeychainMigration.swift). */
module Migration {
  import opened Wrappers
  import opened KeychainErrors
  import opened Keychain

  datatype Step = ReadDestination | ReadSource | WriteDestination | Verify | DeleteSource

  /** What happens immediately before a step: nothing, the process is killed,
      or someone else deletes the destination's item. */
  datatype Event = Proceed | Kill | Vanish

  type Hook = Step -> Event

  datatype Stop = Threw(error: KeychainError) | Killed(step: Step)

  datatype Ran = Ran(keys: Keys, result: Result<Option<Data>, Stop>)

  function Throwing(d: Did<Option<Data>>): Ran {
    Ran(d.keys, if d.result.Ok? then Ok(d.result.value) else Err(Threw(d.result.error)))
  }

  /** The keychain once a step's hook has run. */
  function Before(k: Keys, destination: Item, event: Event): Keys {
    if event.Vanish? then k.Without(destination) else k
  }

  predicate OneItem(k: Keys, source: Item, destination: Item) {
    source.name == destination.name && (source.domain != destination.domain ==> !k.distinct)
  }

  function Migrate(k: Keys, source: Item, destination: Item, hook: Hook): Ran {
    if hook(ReadDestination).Kill? then Ran(k, Err(Killed(ReadDestination)))
    else
      var there := Read(Before(k, destination, hook(ReadDestination)), destination);
      if there.result.Err? then Ran(there.keys, Err(Threw(there.result.error)))
      else MoveSource(there.keys, source, destination, there.result.value, hook)
  }

  function MoveSource(k: Keys, source: Item, destination: Item, alreadyThere: Option<Data>, hook: Hook): Ran {
    if hook(ReadSource).Kill? then Ran(k, Err(Killed(ReadSource)))
    else
      var from := Read(Before(k, destination, hook(ReadSource)), source);
      if from.result.Err? then Ran(from.keys, Err(Threw(from.result.error)))
      else if from.result.value.None? then Ran(from.keys, Ok(alreadyThere))
      else if alreadyThere.Some? then VerifyAndDelete(from.keys, source, destination, from.result.value.value, hook)
      else CopyOver(from.keys, source, destination, from.result.value.value, hook)
  }

  function CopyOver(k: Keys, source: Item, destination: Item, secret: Data, hook: Hook): Ran {
    if hook(WriteDestination).Kill? then Ran(k, Err(Killed(WriteDestination)))
    else
      var written := Write(Before(k, destination, hook(WriteDestination)), destination, secret);
      if written.result.Err? then Ran(written.keys, Err(Threw(written.result.error)))
      else VerifyAndDelete(written.keys, source, destination, secret, hook)
  }

  function VerifyAndDelete(k: Keys, source: Item, destination: Item, secret: Data, hook: Hook): Ran {
    if hook(Verify).Kill? then Ran(k, Err(Killed(Verify)))
    else
      var verified := Read(Before(k, destination, hook(Verify)), destination);
      if verified.result.Err? then Ran(verified.keys, Err(Threw(verified.result.error)))
      else if verified.result.value.None? then Ran(verified.keys, Err(Threw(Unexpected(NotFound))))
      else if verified.result.value.value != secret then Ran(verified.keys, Err(Threw(MigrationUnverified)))
      else if hook(DeleteSource).Kill? then Ran(verified.keys, Err(Killed(DeleteSource)))
      else
        var deleted := Delete(Before(verified.keys, destination, hook(DeleteSource)), source);
        if deleted.result.Err? then Ran(deleted.keys, Err(Threw(deleted.result.error)))
        else Ran(deleted.keys, Ok(Some(secret)))
  }

  function Run(k: Keys, source: Item, destination: Item, hook: Hook): Ran {
    if OneItem(k, source, destination) then
      if hook(ReadDestination).Kill? then Ran(k, Err(Killed(ReadDestination)))
      else Throwing(Read(Before(k, destination, hook(ReadDestination)), destination))
    else
      FallBack(Migrate(k, source, destination, hook), source)
  }

  /** Every Keychain error but one leaves the source to answer. */
  function FallBack(ran: Ran, source: Item): Ran {
    if ran.result.Err? && ran.result.error.Threw? && ran.result.error.error != MigrationUnverified
    then Throwing(Read(ran.keys, source))
    else ran
  }

  function LoadMigratingIfNeeded(k: Keys, source: Item, destination: Item, hook: Hook): Ran {
    var migrated := Run(k, source, destination, hook);
    if migrated.result.Err? then migrated
    else
      var raised := RaiseClass(migrated.keys, destination);
      if raised.result.Err? then Rescue(raised.keys, raised.result.error, migrated.result.value)
      else
        var read := ReadAcrossDomains(raised.keys, destination);
        if read.result.Err? then Rescue(read.keys, read.result.error, migrated.result.value)
        else Ran(read.keys, Ok(if read.result.value.Some? then read.result.value else migrated.result.value))
  }

  /** A failed destination gives way to rescued bytes; a class that could not be raised does not. */
  function Rescue(k: Keys, error: KeychainError, migrated: Option<Data>): Ran {
    Ran(k, if error.AccessibilityNotRaised? || migrated.None? then Err(Threw(error)) else Ok(migrated))
  }
}
