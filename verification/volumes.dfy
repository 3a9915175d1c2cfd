/** proton/volume.go: the shares of one volume, picked out of the client's
    account-wide share listing, and the volume-ownership check on a share. */
module Volumes {
  import opened Wrappers
  import opened Errors
  import opened Sessions
  import opened Drive

  /** One entry of the client's share listing (go-proton-api `ShareMetadata`,
      the fields used here). */
  datatype ShareMetadata = ShareMetadata(
    shareID: string,
    linkID: string,
    volumeID: string,
    shareType: int,
    state: int,
    creator: string,
    flags: int)

  /** Go's zero `ShareMetadata`. */
  const NoShareMetadata := ShareMetadata("", "", "", 0, 0, "", 0)

  /** A volume of the account (`pVolume.VolumeID` is its identity). */
  datatype Volume = Volume(session: Session, volumeID: string)

  /** The client's `ListShares(all)`, which may fail. */
  type ShareLister = bool -> Result<seq<ShareMetadata>, Error>

  /** The entries of `ss` that lie on volume `vid`, in their original order. */
  function OnVolume(ss: seq<ShareMetadata>, vid: string): (r: seq<ShareMetadata>)
    ensures |r| <= |ss|
    ensures forall i :: 0 <= i < |r| ==> r[i].volumeID == vid
  {
    if ss == [] then []
    else OnVolume(ss[..|ss| - 1], vid) + (if ss[|ss| - 1].volumeID == vid then [ss[|ss| - 1]] else [])
  }

  /** `a` is `b` with some entries removed, the rest in the same order. */
  ghost predicate IsSubsequence(a: seq<ShareMetadata>, b: seq<ShareMetadata>)
    decreases |b|
  {
    if a == [] then true
    else if b == [] then false
    else (a[|a| - 1] == b[|b| - 1] && IsSubsequence(a[..|a| - 1], b[..|b| - 1]))
         || IsSubsequence(a, b[..|b| - 1])
  }

  /** `ListShareMetadata` keeps every entry of the volume as often as the
      listing holds it and drops every entry of another volume. */
  lemma {:induction false} OnVolumeCounts(ss: seq<ShareMetadata>, vid: string, x: ShareMetadata)
    ensures multiset(OnVolume(ss, vid))[x] == if x.volumeID == vid then multiset(ss)[x] else 0
  {
    if ss != [] {
      var init := ss[..|ss| - 1];
      OnVolumeCounts(init, vid, x);
      assert ss == init + [ss[|ss| - 1]];
    }
  }

  /** An entry is in the result exactly when it is listed and on the volume. */
  lemma OnVolumeMembers(ss: seq<ShareMetadata>, vid: string, x: ShareMetadata)
    ensures x in OnVolume(ss, vid) <==> x in ss && x.volumeID == vid
  {
    OnVolumeCounts(ss, vid, x);
    assert x in OnVolume(ss, vid) <==> x in multiset(OnVolume(ss, vid));
    assert x in ss <==> x in multiset(ss);
  }

  /** The result keeps the listing's order. */
  lemma {:induction false} OnVolumeIsSubsequence(ss: seq<ShareMetadata>, vid: string)
    ensures IsSubsequence(OnVolume(ss, vid), ss)
  {
    if ss != [] {
      var init := ss[..|ss| - 1];
      OnVolumeIsSubsequence(init, vid);
      var r := OnVolume(ss, vid);
      if ss[|ss| - 1].volumeID == vid {
        assert r[..|r| - 1] == OnVolume(init, vid);
      } else {
        assert r == OnVolume(init, vid);
        if r != [] {
          SubsequenceExtend(r, init, ss[|ss| - 1]);
        }
      }
    }
  }

  lemma {:induction false} SubsequenceExtend(a: seq<ShareMetadata>, b: seq<ShareMetadata>, x: ShareMetadata)
    requires IsSubsequence(a, b)
    ensures IsSubsequence(a, b + [x])
  {
    assert (b + [x])[..|b + [x]| - 1] == b;
  }

  /** `Volume.ListShareMetadata`: the client's listing, filtered to this volume
      by appending each matching entry in turn; a listing error is returned and
      no list with it. */
  method ListShareMetadata(v: Volume, listShares: ShareLister, all: bool)
    returns (r: Result<seq<ShareMetadata>, Error>)
    ensures listShares(all).Err? ==> r == Err(listShares(all).error)
    ensures listShares(all).Ok? ==> r == Ok(OnVolume(listShares(all).value, v.volumeID))
  {
    var pshares := listShares(all);
    if pshares.Err? {
      return Err(pshares.error);
    }
    var ps := pshares.value;
    var shares: seq<ShareMetadata> := [];
    for i := 0 to |ps|
      invariant shares == OnVolume(ps[..i], v.volumeID)
    {
      assert ps[..i + 1][..i] == ps[..i];
      if ps[i].volumeID == v.volumeID {
        shares := shares + [ps[i]];
      }
    }
    assert ps[..|ps|] == ps;
    return Ok(shares);
  }

  /** The entry `GetShareMetadata` is looking for. */
  predicate Wanted(s: ShareMetadata, id: string, vid: string)
  {
    s.shareID == id && s.volumeID == vid
  }

  /** `Volume.GetShareMetadata`: the first listed entry with this share ID on
      this volume; if there is none, the zero entry and no error. */
  method GetShareMetadata(v: Volume, listShares: ShareLister, id: string, all: bool)
    returns (r: Result<ShareMetadata, Error>)
    ensures listShares(all).Err? ==> r == Err(listShares(all).error)
    ensures listShares(all).Ok? ==>
              var ss := listShares(all).value;
              && (forall k :: 0 <= k < |ss| && Wanted(ss[k], id, v.volumeID)
                              && (forall j :: 0 <= j < k ==> !Wanted(ss[j], id, v.volumeID))
                              ==> r == Ok(ss[k]))
              && ((forall j :: 0 <= j < |ss| ==> !Wanted(ss[j], id, v.volumeID)) ==> r == Ok(NoShareMetadata))
  {
    var pshares := listShares(all);
    if pshares.Err? {
      return Err(pshares.error);
    }
    var ps := pshares.value;
    var i := 0;
    while i < |ps|
      invariant 0 <= i <= |ps|
      invariant forall j :: 0 <= j < i ==> !Wanted(ps[j], id, v.volumeID)
    {
      if ps[i].shareID == id && ps[i].volumeID == v.volumeID {
        assert forall k :: (0 <= k < |ps| && Wanted(ps[k], id, v.volumeID)
                            && (forall j :: 0 <= j < k ==> !Wanted(ps[j], id, v.volumeID))) ==> k == i;
        return Ok(ps[i]);
      }
      i := i + 1;
    }
    return Ok(NoShareMetadata);
  }

  /** `Volume.GetShare`: the fetched share if it lies on this volume, no share
      and no error if it lies on another; a fetch error is returned. */
  function GetShare(v: Volume, getShare: string -> Result<Share, Error>, id: string)
    : (r: Result<Option<Share>, Error>)
    ensures getShare(id).Err? <==> r.Err?
    ensures r.Err? ==> r.error == getShare(id).error
    ensures r.Ok? && r.value.Some? ==> r.value.value == getShare(id).value
    ensures r.Ok? ==> (r.value.Some? <==> getShare(id).value.protonShare.volumeID == v.volumeID)
  {
    match getShare(id)
    case Err(e) => Err(e)
    case Ok(share) =>
      if share.protonShare.volumeID != v.volumeID then Ok(None) else Ok(Some(share))
  }
}
