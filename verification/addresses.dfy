/** proton/address.go: the `String` methods of `AddressType` and
    `AddressStatus`, a range check followed by an index into a constant table. */
module Addresses {
  import opened Decimal

  /** go-proton-api `AddressType`, numbered from `iota + 1`. */
  const AddressTypeOriginal := 1
  const AddressTypeAlias := 2
  const AddressTypeCustom := 3
  const AddressTypePremium := 4
  const AddressTypeExternal := 5

  /** go-proton-api `AddressStatus`, numbered from `iota`. */
  const AddressStatusDisabled := 0
  const AddressStatusEnabled := 1
  const AddressStatusDeleting := 2

  const AddressTypeNames: seq<string> := ["original", "alias", "custom", "premium", "external"]
  const AddressStatusNames: seq<string> := ["disabled", "enabled", "deleting"]

  /** `AddressType.String`: defined for every integer; the table index `a - 1`
      is in bounds for every value that passes the range check. */
  function AddressTypeString(a: int): (r: string)
    ensures r == "original" <==> a == AddressTypeOriginal
    ensures r == "alias" <==> a == AddressTypeAlias
    ensures r == "custom" <==> a == AddressTypeCustom
    ensures r == "premium" <==> a == AddressTypePremium
    ensures r == "external" <==> a == AddressTypeExternal
    ensures (a < AddressTypeOriginal || a > AddressTypeExternal) ==>
              r == "Unknown Status (" + FormatInt(a) + ")"
  {
    if a < AddressTypeOriginal || a > AddressTypeExternal then "Unknown Status (" + FormatInt(a) + ")"
    else AddressTypeNames[a - 1]
  }

  /** `AddressStatus.String`: defined for every integer; the table index is
      the status itself. */
  function AddressStatusString(s: int): (r: string)
    ensures r == "disabled" <==> s == AddressStatusDisabled
    ensures r == "enabled" <==> s == AddressStatusEnabled
    ensures r == "deleting" <==> s == AddressStatusDeleting
    ensures (s < AddressStatusDisabled || s > AddressStatusDeleting) ==>
              r == "Unknown Status (" + FormatInt(s) + ")"
  {
    if s < AddressStatusDisabled || s > AddressStatusDeleting then "Unknown Status (" + FormatInt(s) + ")"
    else AddressStatusNames[s]
  }

  /** Different address types never print the same. */
  lemma AddressTypeStringInjective(a: int, b: int)
    requires AddressTypeString(a) == AddressTypeString(b)
    ensures a == b
  {
    if (a < AddressTypeOriginal || a > AddressTypeExternal) && (b < AddressTypeOriginal || b > AddressTypeExternal) {
      WrappedInjective("Unknown Status (", a, b);
    }
  }

  /** Different address statuses never print the same. */
  lemma AddressStatusStringInjective(a: int, b: int)
    requires AddressStatusString(a) == AddressStatusString(b)
    ensures a == b
  {
    if (a < AddressStatusDisabled || a > AddressStatusDeleting) && (b < AddressStatusDisabled || b > AddressStatusDeleting) {
      WrappedInjective("Unknown Status (", a, b);
    }
  }
}
