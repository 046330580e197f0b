/** The Keychain as the app calls it (apps/apple/Sunrise/Identity/Keychain.swift,
    KeychainDomain.swift): one or two stores of items, any of whose calls may be
    refused. Every call takes the next answer of a script, so a statement about
    all scripts is a statement about refusals anywhere. */
module Keychain {
  import opened Wrappers
  import opened KeychainErrors

  type Data = seq<bv8>

  /** What a store this build may not use answers to a mutation. */
  const MissingEntitlement: OSStatus := -34018

  /** A reachable store's refusal: not success, not `errSecItemNotFound`, not a missing entitlement. */
  type Refusal = s: OSStatus | s != 0 && s != NotFound && s != MissingEntitlement witness -25308

  datatype Answer = Answers | Refuses(status: Refusal) | Garbled

  datatype Accessibility = AfterFirstUnlock | AfterFirstUnlockThisDeviceOnly

  datatype Domain = Login | DataProtection {
    function Other(): Domain {
      match this
      case Login => DataProtection
      case DataProtection => Login
    }
  }

  /** `name` is the service and the account. */
  datatype Item = Item(name: string, accessibility: Accessibility, domain: Domain) {
    function InOtherDomain(): Item {
      this.(domain := domain.Other())
    }
  }

  datatype Address = Address(name: string, store: Domain)

  /** What is stored. The file-based login keychain reports no class. */
  datatype Stored = Stored(data: Data, accessibility: Option<Accessibility>)

  /** `distinct`: the two domains are two stores. `entitled`: the build may use the data-protection one. */
  datatype Keys = Keys(items: map<Address, Stored>, distinct: bool, entitled: bool, script: seq<Answer>) {
    function At(item: Item): Address {
      Address(item.name, if distinct then item.domain else DataProtection)
    }

    predicate Reachable(item: Item) {
      !distinct || item.domain.Login? || entitled
    }

    /** The bytes stored at an address, whether or not a call would be answered. */
    function Bytes(a: Address): Option<Data> {
      if a in items then Some(items[a].data) else None
    }

    function Holds(item: Item): Option<Data> {
      Bytes(At(item))
    }

    function Next(): Answer {
      if script == [] then Answers else script[0]
    }

    function Called(): Keys {
      if script == [] then this else this.(script := script[1..])
    }

    /** The class a write by `item` leaves on the stored item. */
    function ClassOf(item: Item): Option<Accessibility> {
      if distinct && item.domain.Login? then None else Some(item.accessibility)
    }

    function Put(item: Item, data: Data): Keys {
      this.(items := items[At(item) := Stored(data, ClassOf(item))])
    }

    function Without(item: Item): Keys {
      this.(items := items - {At(item)})
    }
  }

  datatype Did<T> = Did(keys: Keys, result: Result<T, KeychainError>)

  function Read(k: Keys, item: Item): Did<Option<Data>> {
    var after := k.Called();
    if !k.Reachable(item) then Did(after, Ok(None))
    else match k.Next()
      case Answers => Did(after, Ok(k.Holds(item)))
      case Garbled => Did(after, if k.Holds(item).Some? then Err(MalformedItem) else Ok(None))
      case Refuses(status) => Did(after, Err(Unexpected(status)))
  }

  /** An update, and where there is nothing to update, an insert. */
  function Write(k: Keys, item: Item, data: Data): Did<()> {
    var updated := k.Called();
    if !k.Reachable(item) then Did(updated.Called(), Err(Unexpected(MissingEntitlement)))
    else if k.Next().Refuses? then Did(updated, Err(Unexpected(k.Next().status)))
    else if k.Holds(item).Some? then Did(updated.Put(item, data), Ok(()))
    else
      var added := updated.Called();
      if updated.Next().Refuses? then Did(added, Err(Unexpected(updated.Next().status)))
      else Did(added.Put(item, data), Ok(()))
  }

  function Delete(k: Keys, item: Item): Did<()> {
    var after := k.Called();
    if !k.Reachable(item) then Did(after, Err(Unexpected(MissingEntitlement)))
    else if k.Next().Refuses? then Did(after, Err(Unexpected(k.Next().status)))
    else Did(after.Without(item), Ok(()))
  }

  /** Bring the item's class up to the one this build declares. */
  function RaiseClass(k: Keys, item: Item): Did<()> {
    var looked := k.Called();
    if !k.Reachable(item) then Did(looked, Ok(()))
    else if k.Next().Refuses? then Did(looked, Err(Unexpected(k.Next().status)))
    else if k.At(item) !in k.items || k.items[k.At(item)].accessibility in {None, Some(item.accessibility)} then Did(looked, Ok(()))
    else
      var updated := looked.Called();
      if looked.Next().Refuses? then Did(updated, Err(AccessibilityNotRaised(looked.Next().status)))
      else
        var raised := k.items[k.At(item)].(accessibility := Some(item.accessibility));
        Did(updated.(items := updated.items[k.At(item) := raised]), Ok(()))
  }

  // ---- Across the two domains ----

  function ReadAcrossDomains(k: Keys, item: Item): Did<Option<Data>> {
    var here := Read(k, item);
    if here.result.Err? || here.result.value.Some? || !k.distinct then here
    else
      var there := Read(here.keys, item.InOtherDomain());
      if there.result.Err? && there.result.error.Unexpected?
      then Did(there.keys, Err(OtherDomainUnreadable(there.result.error.status)))
      else there
  }

  predicate MeansTheOtherStoreWasUnreachable(status: OSStatus) {
    status == MissingEntitlement || status == NotFound
  }

  function DeleteInOtherDomain(k: Keys, item: Item): Did<()> {
    var there := Delete(k, item.InOtherDomain());
    if there.result.Err? && there.result.error.Unexpected? && MeansTheOtherStoreWasUnreachable(there.result.error.status)
    then Did(there.keys, Ok(()))
    else there
  }

  function WriteAcrossDomains(k: Keys, item: Item, data: Data): Did<()> {
    var here := Write(k, item, data);
    if here.result.Err? || !k.distinct then here
    else
      var there := DeleteInOtherDomain(here.keys, item);
      if there.result.Err? && there.result.error.Unexpected?
      then Did(there.keys, Err(WrittenButOtherDomainRefused(there.result.error.status)))
      else there
  }

  function DeleteAcrossDomains(k: Keys, item: Item): Did<()> {
    var here := Delete(k, item);
    if !k.distinct then here
    else
      var there := DeleteInOtherDomain(here.keys, item);
      Did(there.keys, if here.result.Err? then here.result else there.result)
  }
}
