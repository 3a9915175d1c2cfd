/** cmd/account/address.go: the labels printed in the address table. */
module AccountCmd {
  import opened Decimal
  import opened Addresses

  /** `getAddrType`. */
  function AddrTypeLabel(t: int): (r: string)
    ensures r == "original" <==> t == AddressTypeOriginal
    ensures r == "alias" <==> t == AddressTypeAlias
    ensures r == "custom" <==> t == AddressTypeCustom
    ensures r == "premium" <==> t == AddressTypePremium
    ensures r == "external" <==> t == AddressTypeExternal
    ensures (t < AddressTypeOriginal || t > AddressTypeExternal) ==> r == "Unknown (" + FormatInt(t) + ")"
  {
    if t == AddressTypeOriginal then "original"
    else if t == AddressTypeAlias then "alias"
    else if t == AddressTypeCustom then "custom"
    else if t == AddressTypePremium then "premium"
    else if t == AddressTypeExternal then "external"
    else "Unknown (" + FormatInt(t) + ")"
  }

  /** `getAddrStatus`. */
  function AddrStatusLabel(s: int): (r: string)
    ensures r == "disabled" <==> s == AddressStatusDisabled
    ensures r == "enabled" <==> s == AddressStatusEnabled
    ensures r == "deleting" <==> s == AddressStatusDeleting
    ensures (s < AddressStatusDisabled || s > AddressStatusDeleting) ==> r == "Unknown (" + FormatInt(s) + ")"
  {
    if s == AddressStatusDisabled then "disabled"
    else if s == AddressStatusEnabled then "enabled"
    else if s == AddressStatusDeleting then "deleting"
    else "Unknown (" + FormatInt(s) + ")"
  }

  /** The table column identifies the address type. */
  lemma AddrTypeLabelInjective(a: int, b: int)
    requires AddrTypeLabel(a) == AddrTypeLabel(b)
    ensures a == b
  {
    if (a < AddressTypeOriginal || a > AddressTypeExternal) && (b < AddressTypeOriginal || b > AddressTypeExternal) {
      WrappedInjective("Unknown (", a, b);
    }
  }

  /** The table column identifies the address status. */
  lemma AddrStatusLabelInjective(a: int, b: int)
    requires AddrStatusLabel(a) == AddrStatusLabel(b)
    ensures a == b
  {
    if (a < AddressStatusDisabled || a > AddressStatusDeleting) && (b < AddressStatusDisabled || b > AddressStatusDeleting) {
      WrappedInjective("Unknown (", a, b);
    }
  }

  /** The command's labels and the `String` methods of proton/address.go agree
      exactly on the known values; on any other value one says "Unknown (n)"
      and the other "Unknown Status (n)". */
  lemma LabelsAgreeWithStringers(t: int, s: int)
    ensures AddrTypeLabel(t) == AddressTypeString(t) <==> AddressTypeOriginal <= t <= AddressTypeExternal
    ensures AddrStatusLabel(s) == AddressStatusString(s) <==> AddressStatusDisabled <= s <= AddressStatusDeleting
  {
    if t < AddressTypeOriginal || t > AddressTypeExternal {
      assert AddrTypeLabel(t)[8] != AddressTypeString(t)[8];
    }
    if s < AddressStatusDisabled || s > AddressStatusDeleting {
      assert AddrStatusLabel(s)[8] != AddressStatusString(s)[8];
    }
  }
}
