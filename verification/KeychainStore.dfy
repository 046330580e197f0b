/** The same Keychain as the object it is, updated in place call by call, and
    the migration as it runs against it
    (apps/apple/Sunrise/Identity/Keychain.swift, KeychainMigration.swift). */
module KeychainStore {
  import opened Wrappers
  import opened KeychainErrors
  import opened Keychain
  import opened Migration

  class Security {
    var items: map<Address, Stored>
    var script: seq<Answer>
    const distinct: bool
    const entitled: bool

    constructor (items: map<Address, Stored>, distinct: bool, entitled: bool, script: seq<Answer>)
      ensures View() == Keys(items, distinct, entitled, script)
    {
      this.items, this.script, this.distinct, this.entitled := items, script, distinct, entitled;
    }

    function View(): Keys
      reads this
    {
      Keys(items, distinct, entitled, script)
    }

    method Call() returns (answer: Answer)
      modifies this`script
      ensures answer == old(View()).Next() && View() == old(View()).Called()
    {
      if script == [] {
        return Answers;
      }
      answer := script[0];
      script := script[1..];
    }

    method Read(item: Item) returns (r: Result<Option<Data>, KeychainError>)
      modifies this`script
      ensures Did(View(), r) == Keychain.Read(old(View()), item)
    {
      var answer := Call();
      if !View().Reachable(item) {
        return Ok(None);
      }
      match answer
      case Answers => return Ok(View().Holds(item));
      case Garbled => return if View().Holds(item).Some? then Err(MalformedItem) else Ok(None);
      case Refuses(status) => return Err(Unexpected(status));
    }

    method Write(item: Item, data: Data) returns (r: Result<(), KeychainError>)
      modifies this
      ensures Did(View(), r) == Keychain.Write(old(View()), item, data)
    {
      var stored := Stored(data, View().ClassOf(item));
      var updated := Call();
      if !View().Reachable(item) {
        var _ := Call();
        return Err(Unexpected(MissingEntitlement));
      }
      if updated.Refuses? {
        return Err(Unexpected(updated.status));
      }
      if View().At(item) !in items {
        var added := Call();
        if added.Refuses? {
          return Err(Unexpected(added.status));
        }
      }
      items := items[View().At(item) := stored];
      return Ok(());
    }

    method Delete(item: Item) returns (r: Result<(), KeychainError>)
      modifies this
      ensures Did(View(), r) == Keychain.Delete(old(View()), item)
    {
      var answer := Call();
      if !View().Reachable(item) {
        return Err(Unexpected(MissingEntitlement));
      }
      if answer.Refuses? {
        return Err(Unexpected(answer.status));
      }
      items := items - {View().At(item)};
      return Ok(());
    }

    method UpgradeAccessibilityIfNeeded(item: Item) returns (r: Result<(), KeychainError>)
      modifies this
      ensures Did(View(), r) == RaiseClass(old(View()), item)
    {
      var looked := Call();
      if !View().Reachable(item) {
        return Ok(());
      }
      if looked.Refuses? {
        return Err(Unexpected(looked.status));
      }
      var at := View().At(item);
      if at !in items || items[at].accessibility.None? || items[at].accessibility.value == item.accessibility {
        return Ok(());
      }
      var updated := Call();
      if updated.Refuses? {
        return Err(AccessibilityNotRaised(updated.status));
      }
      items := items[at := items[at].(accessibility := Some(item.accessibility))];
      return Ok(());
    }

    method ReadAcrossDomains(item: Item) returns (r: Result<Option<Data>, KeychainError>)
      modifies this`script
      ensures Did(View(), r) == Keychain.ReadAcrossDomains(old(View()), item)
    {
      r := Read(item);
      if r.Err? || r.value.Some? || !distinct {
        return;
      }
      r := Read(item.InOtherDomain());
      if r.Err? && r.error.Unexpected? {
        return Err(OtherDomainUnreadable(r.error.status));
      }
    }

    method DeleteInOtherDomain(item: Item) returns (r: Result<(), KeychainError>)
      modifies this
      ensures Did(View(), r) == Keychain.DeleteInOtherDomain(old(View()), item)
    {
      r := Delete(item.InOtherDomain());
      if r.Err? && r.error.Unexpected? && MeansTheOtherStoreWasUnreachable(r.error.status) {
        return Ok(());
      }
    }

    method WriteAcrossDomains(item: Item, data: Data) returns (r: Result<(), KeychainError>)
      modifies this
      ensures Did(View(), r) == Keychain.WriteAcrossDomains(old(View()), item, data)
    {
      r := Write(item, data);
      if r.Err? || !distinct {
        return;
      }
      r := DeleteInOtherDomain(item);
      if r.Err? && r.error.Unexpected? {
        return Err(WrittenButOtherDomainRefused(r.error.status));
      }
    }

    method DeleteAcrossDomains(item: Item) returns (r: Result<(), KeychainError>)
      modifies this
      ensures Did(View(), r) == Keychain.DeleteAcrossDomains(old(View()), item)
    {
      r := Delete(item);
      if distinct {
        var other := DeleteInOtherDomain(item);
        if r.Ok? {
          r := other;
        }
      }
    }

    /** Another process deletes an item: no call of this one. */
    method Lose(item: Item)
      modifies this`items
      ensures View() == old(View()).Without(item)
    {
      items := items - {View().At(item)};
    }
  }

  class KeychainMigration {
    const security: Security
    const source: Item
    const destination: Item

    constructor (security: Security, source: Item, destination: Item)
      ensures this.security == security && this.source == source && this.destination == destination
    {
      this.security, this.source, this.destination := security, source, destination;
    }

    function View(): Keys
      reads security
    {
      security.View()
    }

    /** Run a step's hook; `true` when it killed the process. */
    method Interrupting(event: Event) returns (killed: bool)
      modifies security
      ensures killed == event.Kill?
      ensures View() == if killed then old(View()) else Before(old(View()), destination, event)
    {
      if event.Vanish? {
        security.Lose(destination);
      }
      return event.Kill?;
    }

    method Migrate(hook: Hook) returns (r: Result<Option<Data>, Stop>)
      modifies security
      ensures Ran(View(), r) == Migration.Migrate(old(View()), source, destination, hook)
    {
      var killed := Interrupting(hook(ReadDestination));
      if killed {
        return Err(Killed(ReadDestination));
      }
      var alreadyThere := security.Read(destination);
      if alreadyThere.Err? {
        return Err(Threw(alreadyThere.error));
      }
      r := MoveSource(alreadyThere.value, hook);
    }

    method MoveSource(alreadyThere: Option<Data>, hook: Hook) returns (r: Result<Option<Data>, Stop>)
      modifies security
      ensures Ran(View(), r) == Migration.MoveSource(old(View()), source, destination, alreadyThere, hook)
    {
      var killed := Interrupting(hook(ReadSource));
      if killed {
        return Err(Killed(ReadSource));
      }
      var fromSource := security.Read(source);
      if fromSource.Err? {
        return Err(Threw(fromSource.error));
      }
      if fromSource.value.None? {
        return Ok(alreadyThere);
      }
      if alreadyThere.None? {
        killed := Interrupting(hook(WriteDestination));
        if killed {
          return Err(Killed(WriteDestination));
        }
        var written := security.Write(destination, fromSource.value.value);
        if written.Err? {
          return Err(Threw(written.error));
        }
      }
      r := VerifyAndDelete(fromSource.value.value, hook);
    }

    method VerifyAndDelete(secret: Data, hook: Hook) returns (r: Result<Option<Data>, Stop>)
      modifies security
      ensures Ran(View(), r) == Migration.VerifyAndDelete(old(View()), source, destination, secret, hook)
    {
      var killed := Interrupting(hook(Verify));
      if killed {
        return Err(Killed(Verify));
      }
      var verified := security.Read(destination);
      if verified.Err? {
        return Err(Threw(verified.error));
      }
      if verified.value.None? {
        return Err(Threw(Unexpected(NotFound)));
      }
      if verified.value.value != secret {
        return Err(Threw(MigrationUnverified));
      }
      killed := Interrupting(hook(DeleteSource));
      if killed {
        return Err(Killed(DeleteSource));
      }
      var deleted := security.Delete(source);
      if deleted.Err? {
        return Err(Threw(deleted.error));
      }
      return Ok(verified.value);
    }

    method Run(hook: Hook) returns (r: Result<Option<Data>, Stop>)
      modifies security
      ensures Ran(View(), r) == Migration.Run(old(View()), source, destination, hook)
    {
      if OneItem(View(), source, destination) {
        var killed := Interrupting(hook(ReadDestination));
        if killed {
          return Err(Killed(ReadDestination));
        }
        r := Answering(destination);
        return;
      }
      r := Migrate(hook);
      if r.Err? && r.error.Threw? && r.error.error != MigrationUnverified {
        r := Answering(source);
      }
    }

    method Answering(item: Item) returns (r: Result<Option<Data>, Stop>)
      modifies security
      ensures Ran(View(), r) == Throwing(Keychain.Read(old(View()), item))
    {
      var read := security.Read(item);
      return if read.Ok? then Ok(read.value) else Err(Threw(read.error));
    }

    method LoadMigratingIfNeeded(hook: Hook) returns (r: Result<Option<Data>, Stop>)
      modifies security
      ensures Ran(View(), r) == Migration.LoadMigratingIfNeeded(old(View()), source, destination, hook)
    {
      var migrated := Run(hook);
      if migrated.Err? {
        return migrated;
      }
      var raised := security.UpgradeAccessibilityIfNeeded(destination);
      if raised.Err? {
        return Rescue(View(), raised.error, migrated.value).result;
      }
      var atDestination := security.ReadAcrossDomains(destination);
      if atDestination.Err? {
        return Rescue(View(), atDestination.error, migrated.value).result;
      }
      return Ok(if atDestination.value.Some? then atDestination.value else migrated.value);
    }
  }
}
