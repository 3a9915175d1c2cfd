/** cmd/volume/list.go: the labels printed in the volume table. */
module VolumeCmd {
  import opened Wrappers
  import opened Decimal

  /** go-proton-api `VolumeState`. */
  const VolumeStateActive := 1
  const VolumeStateLocked := 3

  /** `getVolState`. */
  function VolStateLabel(s: int): (r: string)
    ensures r == "Active" <==> s == VolumeStateActive
    ensures r == "Locked" <==> s == VolumeStateLocked
    ensures (s != VolumeStateActive && s != VolumeStateLocked) ==> r == "Unknown (" + FormatInt(s) + ")"
  {
    if s == VolumeStateActive then "Active"
    else if s == VolumeStateLocked then "Locked"
    else "Unknown (" + FormatInt(s) + ")"
  }

  /** The state column identifies the volume state. */
  lemma VolStateLabelInjective(a: int, b: int)
    requires VolStateLabel(a) == VolStateLabel(b)
    ensures a == b
  {
    if a != VolumeStateActive && a != VolumeStateLocked && b != VolumeStateActive && b != VolumeStateLocked {
      WrappedInjective("Unknown (", a, b);
    }
  }

  /** `getVolSpace`: a volume without a quota (nil `MaxSpace`) is "unlimited";
      otherwise the quota goes through `bytesSize`, the unit formatter. */
  function VolSpaceLabel(maxSpace: Option<int>, bytesSize: int -> string): (r: string)
    ensures maxSpace.None? ==> r == "unlimited"
    ensures maxSpace.Some? ==> r == bytesSize(maxSpace.value)
  {
    match maxSpace
    case None => "unlimited"
    case Some(n) => bytesSize(n)
  }
}
