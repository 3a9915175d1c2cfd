/** cmd/share/list.go: the labels printed in the share table. */
module ShareCmd {
  import opened Decimal

  /** go-proton-api `ShareType`. */
  const ShareTypeMain := 1
  const ShareTypeStandard := 2
  const ShareTypeDevice := 3

  /** go-proton-api `ShareState`. */
  const ShareStateActive := 1
  const ShareStateDeleted := 2

  /** go-proton-api `ShareFlags`. */
  const NoFlags := 0
  const PrimaryShare := 1

  /** `getShareType`. */
  function ShareTypeLabel(t: int): (r: string)
    ensures r == "main" <==> t == ShareTypeMain
    ensures r == "standard" <==> t == ShareTypeStandard
    ensures r == "device" <==> t == ShareTypeDevice
    ensures (t < ShareTypeMain || t > ShareTypeDevice) ==> r == "Unknown (" + FormatInt(t) + ")"
  {
    if t == ShareTypeMain then "main"
    else if t == ShareTypeStandard then "standard"
    else if t == ShareTypeDevice then "device"
    else "Unknown (" + FormatInt(t) + ")"
  }

  /** `getShareState`. */
  function ShareStateLabel(s: int): (r: string)
    ensures r == "active" <==> s == ShareStateActive
    ensures r == "deleted" <==> s == ShareStateDeleted
    ensures (s != ShareStateActive && s != ShareStateDeleted) ==> r == "Unknown (" + FormatInt(s) + ")"
  {
    if s == ShareStateActive then "active"
    else if s == ShareStateDeleted then "deleted"
    else "Unknown (" + FormatInt(s) + ")"
  }

  /** `getShareFlags`. */
  function ShareFlagsLabel(f: int): (r: string)
    ensures r == "none" <==> f == NoFlags
    ensures r == "primary" <==> f == PrimaryShare
    ensures (f != NoFlags && f != PrimaryShare) ==> r == "Unknown (" + FormatInt(f) + ")"
  {
    if f == NoFlags then "none"
    else if f == PrimaryShare then "primary"
    else "Unknown (" + FormatInt(f) + ")"
  }

  /** The type column identifies the share type. */
  lemma ShareTypeLabelInjective(a: int, b: int)
    requires ShareTypeLabel(a) == ShareTypeLabel(b)
    ensures a == b
  {
    if (a < ShareTypeMain || a > ShareTypeDevice) && (b < ShareTypeMain || b > ShareTypeDevice) {
      WrappedInjective("Unknown (", a, b);
    }
  }

  /** The state column identifies the share state. */
  lemma ShareStateLabelInjective(a: int, b: int)
    requires ShareStateLabel(a) == ShareStateLabel(b)
    ensures a == b
  {
    if a != ShareStateActive && a != ShareStateDeleted && b != ShareStateActive && b != ShareStateDeleted {
      WrappedInjective("Unknown (", a, b);
    }
  }

  /** The flags column identifies the flags value. */
  lemma ShareFlagsLabelInjective(a: int, b: int)
    requires ShareFlagsLabel(a) == ShareFlagsLabel(b)
    ensures a == b
  {
    if a != NoFlags && a != PrimaryShare && b != NoFlags && b != PrimaryShare {
      WrappedInjective("Unknown (", a, b);
    }
  }
}
