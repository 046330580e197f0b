/** What the Keychain can answer instead of an item
    (apps/apple/Sunrise/Identity/KeychainError.swift). */
module KeychainErrors {
  type OSStatus = int

  /** `errSecItemNotFound`. */
  const NotFound: OSStatus := -25300

  datatype KeychainError =
    | MalformedItem
    | Unexpected(status: OSStatus)
    | AccessibilityNotRaised(status: OSStatus)
    | WrittenButOtherDomainRefused(status: OSStatus)
    | OtherDomainUnreadable(status: OSStatus)
    | MigrationUnverified
}
