/** The encrypted Drive tree of proton/links.go and proton/share.go: links
    (files and folders), the share that roots them, the key-ring chain that
    decrypts them, and the resolution of slash-separated paths.

    The two Go files form one module because a Go `Link` points at its `Share`
    and a `Share` at its root `Link`. Network calls and the construction of a
    child `Link` (`Session.newLink`) come from an `Env`; the PGP derivations
    come from a `Crypto` record. Both are arbitrary total functions, so every
    result below holds whatever they return. */
module Drive {
  import opened Wrappers
  import opened Errors
  import opened Sessions
  import GoStrings

  /** go-proton-api `LinkType` values. */
  const LinkTypeFolder := 1
  const LinkTypeFile := 2

  /** The encrypted share record (go-proton-api `Share`, the fields used here). */
  datatype PShare = PShare(shareID: string, linkID: string, volumeID: string, addressID: string)

  /** The encrypted link record (go-proton-api `Link`, the fields used here). */
  datatype PLink = PLink(linkID: string, linkType: int, signatureEmail: string, nameSignatureEmail: string)

  /** What a `Link` reads through its `share` pointer: the share record and the
      share's session. */
  datatype ShareRef = ShareRef(protonShare: PShare, session: Session)

  /** A decrypted node. `parent` is `None` for the root link of a share. */
  datatype Link = Link(
    name: string,
    linkType: int,
    keyRing: KeyRing,
    nameKeyRing: KeyRing,
    parent: Option<Link>,
    protonLink: PLink,
    session: Session,
    share: ShareRef)

  /** A share: its root link, its record and its session. */
  datatype Share = Share(link: Link, protonShare: PShare, session: Session)

  /** The PGP derivations, uninterpreted: `protonLink.GetKeyRing(parent, signer)`,
      `protonLink.GetName(parent, signer)` and `protonShare.GetKeyRing(address)`. */
  datatype Crypto = Crypto(
    linkKeyRing: (PLink, KeyRing, KeyRing) -> Result<KeyRing, Error>,
    linkName: (PLink, KeyRing, KeyRing) -> Result<string, Error>,
    shareKeyRing: (PShare, KeyRing) -> Result<KeyRing, Error>)

  /** The outside world of path resolution: the client's `ListChildren(shareID,
      linkID, all)` and the session's construction of a child `Link` from its
      record (given the owning share and the parent). */
  datatype Env = Env(
    listChildren: (string, string, bool) -> Result<seq<PLink>, Error>,
    newLink: (ShareRef, Link, PLink) -> Result<Link, Error>)

  // ---------------------------------------------------------------------------
  // Key rings

  /** `Share.getKeyRing`: the share key ring is derived from the key ring of the
      share's address; an address without a key ring in the session is
      `KeyNotFound`. */
  function ShareKeyRing(crypto: Crypto, s: ShareRef): (r: Result<KeyRing, Error>)
    ensures s.protonShare.addressID !in s.session.addressKeyRing ==> r == Err(KeyNotFound)
    ensures s.protonShare.addressID in s.session.addressKeyRing ==>
              r == crypto.shareKeyRing(s.protonShare, s.session.addressKeyRing[s.protonShare.addressID])
    ensures r.Ok? ==> s.protonShare.addressID in s.session.addressKeyRing
  {
    if s.protonShare.addressID !in s.session.addressKeyRing then Err(KeyNotFound)
    else crypto.shareKeyRing(s.protonShare, s.session.addressKeyRing[s.protonShare.addressID])
  }

  /** `Link.getParentKeyRing`: the share's key ring for a root link, otherwise
      the parent's name key ring (which cannot fail). */
  function ParentKeyRing(crypto: Crypto, l: Link): (r: Result<KeyRing, Error>)
    ensures l.parent.None? ==> r == ShareKeyRing(crypto, l.share)
    ensures l.parent.Some? ==> r == Ok(l.parent.value.nameKeyRing)
    ensures r.Err? ==> l.parent.None?
  {
    match l.parent
    case None => ShareKeyRing(crypto, l.share)
    case Some(p) => Ok(p.nameKeyRing)
  }

  /** The address key ring of the account address with e-mail `email`: two
      lookups, e-mail to address record and address ID to key ring. */
  function SignerKeyRing(session: Session, email: string): (r: Option<KeyRing>)
    ensures r.Some? <==>
              email in session.addresses && session.addresses[email].id in session.addressKeyRing
    ensures r.Some? ==> r.value == session.addressKeyRing[session.addresses[email].id]
  {
    if email in session.addresses && session.addresses[email].id in session.addressKeyRing
    then Some(session.addressKeyRing[session.addresses[email].id])
    else None
  }

  /** `Link.getKeyRing`: the content key ring, derived from the parent key ring
      and the key ring of the content signer (`SignatureEmail`). The `address`
      argument is not used. A parent-key-ring error comes first; an unknown
      signer is `KeyNotFound`. */
  function LinkKeyRing(crypto: Crypto, l: Link, address: string): (r: Result<KeyRing, Error>)
    ensures ParentKeyRing(crypto, l).Err? ==> r == Err(ParentKeyRing(crypto, l).error)
    ensures (ParentKeyRing(crypto, l).Ok? && SignerKeyRing(l.session, l.protonLink.signatureEmail).None?) ==>
              r == Err(KeyNotFound)
    ensures (ParentKeyRing(crypto, l).Ok? && SignerKeyRing(l.session, l.protonLink.signatureEmail).Some?) ==>
              r == crypto.linkKeyRing(l.protonLink, ParentKeyRing(crypto, l).value,
                                      SignerKeyRing(l.session, l.protonLink.signatureEmail).value)
    ensures r.Ok? ==> ParentKeyRing(crypto, l).Ok? && SignerKeyRing(l.session, l.protonLink.signatureEmail).Some?
  {
    match ParentKeyRing(crypto, l)
    case Err(e) => Err(e)
    case Ok(parentKR) =>
      match SignerKeyRing(l.session, l.protonLink.signatureEmail)
      case None => Err(KeyNotFound)
      case Some(signerKR) => crypto.linkKeyRing(l.protonLink, parentKR, signerKR)
  }

  /** `Link.getAddrKeyRing`: the key ring of the name signer
      (`NameSignatureEmail`); the `address` argument is not used. */
  function AddrKeyRing(l: Link, address: string): (r: Result<KeyRing, Error>)
    ensures r.Ok? <==> SignerKeyRing(l.session, l.protonLink.nameSignatureEmail).Some?
    ensures r.Ok? ==> r.value == SignerKeyRing(l.session, l.protonLink.nameSignatureEmail).value
    ensures r.Err? ==> r.error == KeyNotFound
  {
    match SignerKeyRing(l.session, l.protonLink.nameSignatureEmail)
    case None => Err(KeyNotFound)
    case Some(signerKR) => Ok(signerKR)
  }

  /** `Link.getName`: the name, decrypted with the parent key ring and the name
      signer's key ring; the parent-key-ring error comes before the signer lookup. */
  function LinkName(crypto: Crypto, l: Link): (r: Result<string, Error>)
    ensures ParentKeyRing(crypto, l).Err? ==> r == Err(ParentKeyRing(crypto, l).error)
    ensures (ParentKeyRing(crypto, l).Ok? && SignerKeyRing(l.session, l.protonLink.nameSignatureEmail).None?) ==>
              r == Err(KeyNotFound)
    ensures (ParentKeyRing(crypto, l).Ok? && SignerKeyRing(l.session, l.protonLink.nameSignatureEmail).Some?) ==>
              r == crypto.linkName(l.protonLink, ParentKeyRing(crypto, l).value,
                                   SignerKeyRing(l.session, l.protonLink.nameSignatureEmail).value)
    ensures r.Ok? ==> ParentKeyRing(crypto, l).Ok? && SignerKeyRing(l.session, l.protonLink.nameSignatureEmail).Some?
  {
    match ParentKeyRing(crypto, l)
    case Err(e) => Err(e)
    case Ok(parentKR) =>
      match AddrKeyRing(l, l.protonLink.nameSignatureEmail)
      case Err(e) => Err(e)
      case Ok(addrKR) => crypto.linkName(l.protonLink, parentKR, addrKR)
  }

  /** Below the root, decryption depends on the share only through the parent
      link: two links that differ only in their share (and whose share key rings
      may differ or fail) get the same content key ring and the same name. */
  lemma ChildDerivationIgnoresShare(crypto: Crypto, l: Link, other: ShareRef, address: string)
    requires l.parent.Some?
    ensures LinkKeyRing(crypto, l.(share := other), address) == LinkKeyRing(crypto, l, address)
    ensures LinkName(crypto, l.(share := other)) == LinkName(crypto, l)
  {
  }

  // ---------------------------------------------------------------------------
  // Children

  /** Builds one child of `l` from its record (`Link.newLink`): the child is
      owned by `l`'s share and has `l` as its parent. */
  function NewLink(env: Env, l: Link, p: PLink): (r: Result<Link, Error>)
    ensures r == env.newLink(l.share, l, p)
  {
    env.newLink(l.share, l, p)
  }

  /** All children built in order, or the first construction error. */
  function ConvertChildren(env: Env, l: Link, ps: seq<PLink>): (r: Result<seq<Link>, Error>)
    ensures r.Ok? ==>
              && |r.value| == |ps|
              && forall i :: 0 <= i < |ps| ==> NewLink(env, l, ps[i]) == Ok(r.value[i])
    ensures r.Err? ==>
              exists k :: 0 <= k < |ps| && NewLink(env, l, ps[k]) == Err(r.error)
                          && forall j :: 0 <= j < k ==> NewLink(env, l, ps[j]).Ok?
  {
    if ps == [] then Ok([])
    else
      match NewLink(env, l, ps[0])
      case Err(e) => Err(e)
      case Ok(c) =>
        match ConvertChildren(env, l, ps[1..])
        case Err(e) => Err(e)
        case Ok(cs) => Ok([c] + cs)
  }

  /** The children of `l` as the client lists them, all built, or the error. */
  function ChildrenOf(env: Env, l: Link, all: bool): (r: Result<seq<Link>, Error>)
    ensures var fetched := env.listChildren(l.share.protonShare.shareID, l.protonLink.linkID, all);
            && (fetched.Err? ==> r == Err(fetched.error))
            && (r.Ok? ==>
                  && fetched.Ok? && |r.value| == |fetched.value|
                  && forall i :: 0 <= i < |fetched.value| ==> NewLink(env, l, fetched.value[i]) == Ok(r.value[i]))
            && (r.Err? && fetched.Ok? ==>
                  exists k :: 0 <= k < |fetched.value| && NewLink(env, l, fetched.value[k]) == Err(r.error)
                              && forall j :: 0 <= j < k ==> NewLink(env, l, fetched.value[j]).Ok?)
  {
    match env.listChildren(l.share.protonShare.shareID, l.protonLink.linkID, all)
    case Err(e) => Err(e)
    case Ok(ps) => ConvertChildren(env, l, ps)
  }

  /** `Link.ListChildren`: fetch the child records, then build each into a slot
      of a fresh array; the first failure discards everything built so far. */
  method ListChildren(env: Env, l: Link, all: bool) returns (r: Result<seq<Link>, Error>)
    ensures r == ChildrenOf(env, l, all)
  {
    var fetched := env.listChildren(l.share.protonShare.shareID, l.protonLink.linkID, all);
    if fetched.Err? {
      return Err(fetched.error);
    }
    var ps := fetched.value;
    var children := new Link[|ps|](_ => l);
    for i := 0 to |ps|
      invariant forall j :: 0 <= j < i ==> NewLink(env, l, ps[j]) == Ok(children[j])
    {
      var link := NewLink(env, l, ps[i]);
      if link.Err? {
        var spec := ConvertChildren(env, l, ps);
        assert spec.Err? && spec.error == link.error by {
          if spec.Err? {
            var k :| 0 <= k < |ps| && NewLink(env, l, ps[k]) == Err(spec.error)
                     && forall j :: 0 <= j < k ==> NewLink(env, l, ps[j]).Ok?;
            assert k == i by {
              assert !(k < i) && !(i < k);
            }
          }
        }
        return Err(link.error);
      }
      children[i] := link.value;
    }
    var spec := ConvertChildren(env, l, ps);
    assert spec.Ok?;
    assert children[..] == spec.value by {
      forall j | 0 <= j < |ps| ensures children[..][j] == spec.value[j] {
        assert NewLink(env, l, ps[j]) == Ok(spec.value[j]);
      }
    }
    return Ok(children[..]);
  }

  // ---------------------------------------------------------------------------
  // Path resolution

  /** The index of the first child named `name`, in list order. */
  function FindChild(children: seq<Link>, name: string): (r: Option<nat>)
    ensures r.Some? ==>
              && r.value < |children|
              && children[r.value].name == name
              && forall j :: 0 <= j < r.value ==> children[j].name != name
    ensures r.None? ==> forall j :: 0 <= j < |children| ==> children[j].name != name
  {
    if children == [] then None
    else if children[0].name == name then Some(0)
    else
      match FindChild(children[1..], name)
      case None => None
      case Some(k) => Some(k + 1)
  }

  /** No segments, or one empty segment: the path names the link itself. */
  predicate IsEmptyPath(parts: seq<string>)
  {
    parts == [] || (|parts| == 1 && parts[0] == "")
  }

  /** `Link.resolveParts`. Resolution only gets past a non-empty path through
      a folder, and a successful resolution ends at a link named after the
      last segment when that segment is not empty. */
  function ResolveParts(env: Env, l: Link, parts: seq<string>, all: bool): (r: Result<Link, Error>)
    ensures r.Ok? && !IsEmptyPath(parts) ==> l.linkType == LinkTypeFolder
    ensures (r.Ok? && |parts| >= 1 && parts[|parts| - 1] != "") ==> r.value.name == parts[|parts| - 1]
    decreases |parts|
  {
    if IsEmptyPath(parts) then Ok(l)
    else if l.linkType != LinkTypeFolder then Err(NotAFolder)
    else
      match ChildrenOf(env, l, all)
      case Err(e) => Err(e)
      case Ok(children) =>
        match FindChild(children, parts[0])
        case None => Err(FileNotFound)
        case Some(k) => ResolveParts(env, children[k], parts[1..], all)
  }

  /** The segments `Link.ResolvePath` walks: `strings.Split(strings.Trim(path, "/"), "/")`. */
  function PathParts(path: string): seq<string>
  {
    GoStrings.Split(GoStrings.Trim(path, '/'), '/')
  }

  /** `Link.ResolvePath`. A path of slashes only names the link itself; a
      non-empty path without slashes is looked up as one child name. */
  function ResolvePath(env: Env, l: Link, path: string, all: bool): (r: Result<Link, Error>)
    ensures (forall i :: 0 <= i < |path| ==> path[i] == '/') ==> r == Ok(l)
    ensures (path != "" && '/' !in path) ==> r == ResolveParts(env, l, [path], all)
  {
    GoStrings.TrimEmptyIff(path, '/');
    assert path != "" && '/' !in path ==> GoStrings.Trim(path, '/') == path;
    assert '/' !in path ==> GoStrings.Split(path, '/') == [path] by {
      if '/' !in path { GoStrings.SplitNoSep(path, '/'); }
    }
    ResolveParts(env, l, PathParts(path), all)
  }

  /** The empty-path test comes before the folder test: even a file resolves
      an empty path to itself. */
  lemma ResolveEmptyPartsIsSelf(env: Env, l: Link, parts: seq<string>, all: bool)
    requires IsEmptyPath(parts)
    ensures ResolveParts(env, l, parts, all) == Ok(l)
  {
  }

  /** A path made only of slashes, "" included, resolves to the link itself. */
  lemma ResolveSlashesIsSelf(env: Env, l: Link, path: string, all: bool)
    requires forall i :: 0 <= i < |path| ==> path[i] == '/'
    ensures PathParts(path) == [""]
    ensures ResolvePath(env, l, path, all) == Ok(l)
  {
    GoStrings.TrimEmptyIff(path, '/');
  }

  /** A file asked for a non-empty path is `NotAFolder`, whatever the client
      would list: no child is fetched. */
  lemma ResolveFileIsNotAFolder(env: Env, l: Link, parts: seq<string>, all: bool)
    requires !IsEmptyPath(parts) && l.linkType != LinkTypeFolder
    ensures ResolveParts(env, l, parts, all) == Err(NotAFolder)
  {
  }

  /** A listing error is returned unchanged. */
  lemma ResolveListingError(env: Env, l: Link, parts: seq<string>, all: bool)
    requires !IsEmptyPath(parts) && l.linkType == LinkTypeFolder
    requires ChildrenOf(env, l, all).Err?
    ensures ResolveParts(env, l, parts, all) == Err(ChildrenOf(env, l, all).error)
  {
  }

  /** The first child in list order whose name equals the first segment is
      the one resolution continues from, with the remaining segments and the
      same `all` flag; when no child matches the result is `FileNotFound`. */
  lemma ResolveFirstMatch(env: Env, l: Link, parts: seq<string>, all: bool, children: seq<Link>)
    requires !IsEmptyPath(parts) && l.linkType == LinkTypeFolder
    requires ChildrenOf(env, l, all) == Ok(children)
    ensures forall k :: 0 <= k < |children| && children[k].name == parts[0]
                        && (forall j :: 0 <= j < k ==> children[j].name != parts[0])
                        ==> ResolveParts(env, l, parts, all) == ResolveParts(env, children[k], parts[1..], all)
    ensures (forall j :: 0 <= j < |children| ==> children[j].name != parts[0])
              ==> ResolveParts(env, l, parts, all) == Err(FileNotFound)
  {
    var found := FindChild(children, parts[0]);
    forall k | 0 <= k < |children| && children[k].name == parts[0]
                && (forall j :: 0 <= j < k ==> children[j].name != parts[0])
      ensures found == Some(k)
    {
      assert found.Some?;
      assert !(found.value < k) && !(k < found.value);
    }
  }

  /** Resolving a concatenation of segments is resolving the first part and
      then the second from where the first ended, provided the first part has
      no empty segment (an empty segment alone would name the link itself). */
  lemma {:induction false} ResolveAppend(env: Env, l: Link, xs: seq<string>, ys: seq<string>, all: bool)
    requires forall i :: 0 <= i < |xs| ==> xs[i] != ""
    decreases |xs|
    ensures ResolveParts(env, l, xs + ys, all) ==
              match ResolveParts(env, l, xs, all)
              case Err(e) => Err(e)
              case Ok(m) => ResolveParts(env, m, ys, all)
  {
    if xs == [] {
      assert xs + ys == ys;
    } else {
      assert (xs + ys)[0] == xs[0];
      assert (xs + ys)[1..] == xs[1..] + ys;
      if l.linkType == LinkTypeFolder && ChildrenOf(env, l, all).Ok? {
        var children := ChildrenOf(env, l, all).value;
        var found := FindChild(children, xs[0]);
        if found.Some? {
          ResolveAppend(env, children[found.value], xs[1..], ys, all);
        }
      }
    }
  }

  /** A trailing slash does not change what a path resolves to: "a/b/" is "a/b"
      (the folder itself, not a listing of it). */
  lemma ResolveTrailingSlash(env: Env, l: Link, path: string, all: bool)
    ensures ResolvePath(env, l, path + "/", all) == ResolvePath(env, l, path, all)
  {
    GoStrings.TrimDropsTrailing(path, '/');
  }

  /** A leading slash does not change what a path resolves to. */
  lemma ResolveLeadingSlash(env: Env, l: Link, path: string, all: bool)
    ensures ResolvePath(env, l, "/" + path, all) == ResolvePath(env, l, path, all)
  {
    GoStrings.TrimDropsLeading(path, '/');
  }

  lemma {:induction false} JoinEnds(parts: seq<string>, sep: char)
    requires |parts| >= 1 && forall i :: 0 <= i < |parts| ==> parts[i] != ""
    ensures var s := GoStrings.Join(parts, sep);
            |s| >= 1 && s[0] == parts[0][0] && s[|s| - 1] == parts[|parts| - 1][|parts[|parts| - 1]| - 1]
  {
    if |parts| > 1 {
      JoinEnds(parts[1..], sep);
    }
  }

  /** The path "a/b/c" built from non-empty, slash-free segments resolves
      exactly like walking "a", then "b", then "c" down the tree. */
  lemma ResolveJoinedPath(env: Env, l: Link, segments: seq<string>, all: bool)
    requires |segments| >= 1
    requires forall i :: 0 <= i < |segments| ==> segments[i] != "" && '/' !in segments[i]
    ensures ResolvePath(env, l, GoStrings.Join(segments, '/'), all) == ResolveParts(env, l, segments, all)
  {
    var s := GoStrings.Join(segments, '/');
    JoinEnds(segments, '/');
    assert GoStrings.TrimLeft(s, '/') == s;
    assert GoStrings.TrimRight(s, '/') == s;
    GoStrings.SplitJoin(segments, '/');
  }

  // ---------------------------------------------------------------------------
  // Share delegation

  /** `Share.GetName`: the root link's name; it cannot fail. */
  function ShareName(s: Share): (r: string)
    ensures r == s.link.name
  {
    s.link.name
  }

  /** `Share.ListChildren`: the children of the root link. */
  method ShareListChildren(env: Env, s: Share, all: bool) returns (r: Result<seq<Link>, Error>)
    ensures r == ChildrenOf(env, s.link, all)
  {
    r := ListChildren(env, s.link, all);
  }

  /** `Share.ResolvePath`: resolution from the root link. */
  function ShareResolvePath(env: Env, s: Share, path: string, all: bool): (r: Result<Link, Error>)
    ensures r == ResolvePath(env, s.link, path, all)
    ensures (forall i :: 0 <= i < |path| ==> path[i] == '/') ==> r == Ok(s.link)
  {
    ResolvePath(env, s.link, path, all)
  }
}
