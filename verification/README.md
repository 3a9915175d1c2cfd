# proton-cli Drive core in Dafny

A model of the Proton Drive tree logic of `proton-cli` (the Go `proton`
library of the tool plus the table-label helpers of three of its commands), with
proofs of what that code promises:

- resolving a slash-separated path against the encrypted link tree
  (`Link.ResolvePath`, `Link.resolveParts`), including the trimming and splitting
  of the path the way Go's `strings.Trim` and `strings.Split` do it;
- building the children of a folder all-or-nothing (`Link.ListChildren`);
- choosing the key rings that decrypt a link: the share key ring for a root link,
  the parent's name key ring otherwise, and the signer's address key ring found
  through two lookups (e-mail to address, address ID to key ring), with
  `KeyNotFound` when either lookup misses;
- the share's delegation to its root link and its own key ring;
- picking one volume's shares out of the account-wide share listing, finding
  one share in it, and the volume-ownership check of `Volume.GetShare`;
- the credential checks of `SessionFromConfig`, which run in a fixed order before
  any client call, and the locked session it builds;
- the display labels, all total: the `String` methods of `AddressType` and
  `AddressStatus` print "Unknown Status (n)" for other values, while the
  command helpers for address types and statuses, share types, states and
  flags, and volume states print "Unknown (n)".

Modules: `Wrappers` (Option, Result), `Errors` (proton/errors.go), `GoStrings`
(`strings.Trim`/`Split`/`Join` with one separator), `Decimal` (`fmt`'s `%d`),
`Sessions` (proton/session.go), `Drive` (proton/links.go and proton/share.go,
one module because a Go `Link` points at its `Share` and a `Share` at its root
`Link`), `Volumes` (proton/volume.go), `Addresses` (proton/address.go),
`AccountCmd`, `ShareCmd`, `VolumeCmd` (the label helpers).

What the model takes as given:

- The API client is a set of function parameters: `Env.listChildren` for
  `Client.ListChildren`, `ShareLister` for `Client.ListShares`, `getUser` and
  `getAddresses` for `GetUser`/`GetAddresses`, `getShare` for
  `Session.GetShare`. Each may return any value or any error, so every property
  holds for every server answer. They are fixed functions of their arguments,
  though: the lemmas that compare two resolutions (`ResolveAppend`,
  `ResolveTrailingSlash`, `ResolveLeadingSlash`, `ResolveJoinedPath`) assume the
  tree does not change between the calls being compared.
- `Session.newLink` (building a child `Link` from its record) is the parameter
  `Env.newLink`; session.go does not define it, and it is not part of this model.
- `KeyRing` is an abstract type. The PGP derivations `protonLink.GetKeyRing`,
  `protonLink.GetName` and `protonShare.GetKeyRing` are the uninterpreted
  functions of a `Crypto` record.
- The numeric values of the go-proton-api enums: address type Original..External
  = 1..5 (`iota + 1`), address status Disabled..Deleting = 0..2, share type
  Main/Standard/Device = 1/2/3, share state Active/Deleted = 1/2, share flags
  NoFlags/PrimaryShare = 0/1, volume state Active/Locked = 1/3, link type Folder = 1.
- A `Link` keeps what it reads through its `share` pointer (the share record and
  the share's session) as a `ShareRef` value, and its parent as `Option<Link>`,
  so link values stay acyclic.
- links.go reads `session.addresses` (e-mail to address record), a field the
  `Session` struct of proton/session.go does not declare. The model's `Session`
  has it; `SessionFromConfig` leaves it empty, as Go leaves an unset map.

Notes on behaviour the proofs pin down:

- A path made only of slashes, `""` included, splits into one empty segment and
  resolves to the link itself; this test comes before the folder test, so a file
  resolves such a path to itself.
- A trailing slash is trimmed before splitting, so `"a/b/"` resolves to the
  folder `a/b` itself. The comment above `resolveParts` (proton/links.go:63-66)
  says a trailing slash should list the folder's children; the code does not do
  that, and the model follows the code.
- An empty segment in the middle (`"a//b"`) is looked for as a child named `""`.
- When several children share a name, the first in listing order wins.
- `GetShareMetadata` reports "no such share" as the zero `ShareMetadata` with no
  error, not as an error.

## Model

| member | source | states |
|---|---|---|
| `Drive.ListChildren` | proton/links.go:40-61 | the result is the listing error, or every child built in listing order, or the first construction error; never a partial list |
| `Drive.ConvertChildren` | proton/links.go:51-60 | on success one child per record, same length and order, each the built child of its record; on failure the error of the first record that fails, every earlier record having built |
| `Drive.NewLink` | proton/links.go:35-38 | a child is built by the session's constructor with the link's own share as owner and the link itself as parent |
| `Drive.ChildrenOf` | proton/links.go:46-60 | a listing error is returned unchanged; a success has one child per listed record, in listing order, each the built child of its record; a construction failure is the error of the first record that fails, all earlier records having built |
| `Drive.ResolveParts` | proton/links.go:67-94 | success past a non-empty path only through a folder; a successful resolution ends at a link named after the last segment when it is non-empty (further promises in `ResolveEmptyPartsIsSelf`, `ResolveFileIsNotAFolder`, `ResolveListingError`, `ResolveFirstMatch`, `ResolveAppend`) |
| `Drive.ResolvePath` | proton/links.go:96-102 | a slashes-only path, `""` included, gives the link itself; a non-empty slash-free path is looked up as a single child name (further promises in `ResolveTrailingSlash`, `ResolveLeadingSlash`, `ResolveJoinedPath`) |
| `Drive.FindChild` | proton/links.go:86-91 | the index of the first child whose name equals the segment exactly; none when no child has that name |
| `Drive.ResolveEmptyPartsIsSelf` | proton/links.go:70-73 | no segments, or one empty segment, resolve to the link itself, file or folder |
| `Drive.ResolveSlashesIsSelf` | proton/links.go:96-102 | any path of slashes only, `""` included, splits to `[""]` and resolves to the link itself |
| `Drive.ResolveFileIsNotAFolder` | proton/links.go:75-77 | a non-folder with a non-empty path is `NotAFolder` whatever the client would list |
| `Drive.ResolveListingError` | proton/links.go:79-82 | a `ListChildren` error is returned unchanged |
| `Drive.ResolveFirstMatch` | proton/links.go:86-93 | resolution continues from the first matching child with the remaining segments and the same `all` flag; no matching child is `FileNotFound` |
| `Drive.ResolveAppend` | proton/links.go:67-94 | resolving `xs + ys` is resolving `xs` and then `ys` from there, when `xs` has no empty segment |
| `Drive.ResolveTrailingSlash` | proton/links.go:98-101 | `path + "/"` resolves exactly like `path` |
| `Drive.ResolveLeadingSlash` | proton/links.go:98-101 | `"/" + path` resolves exactly like `path` |
| `Drive.ResolveJoinedPath` | proton/links.go:96-102 | the path `"a/b/c"` of non-empty slash-free segments resolves exactly like walking the segments one level at a time |
| `Drive.ParentKeyRing` | proton/links.go:104-113 | the share key ring (or its error) for a root link; the parent's name key ring, never an error, otherwise |
| `Drive.SignerKeyRing` | proton/links.go:123-124 | an address key ring is found exactly when the e-mail has an address record and that address ID has a key ring |
| `Drive.LinkKeyRing` | proton/links.go:115-130 | a parent-key-ring error first; then `KeyNotFound` when the content signer (`SignatureEmail`) has no key ring; otherwise the derivation from the parent and signer key rings; success implies both the parent key ring and the signer key ring were found; the `address` argument plays no part |
| `Drive.AddrKeyRing` | proton/links.go:132-141 | the name signer's (`NameSignatureEmail`) key ring, or `KeyNotFound`; the `address` argument plays no part |
| `Drive.LinkName` | proton/links.go:143-158 | a parent-key-ring error first; then `KeyNotFound` when the name signer has no key ring; otherwise the name decrypted with the parent and name-signer key rings; success implies both were found |
| `Drive.ChildDerivationIgnoresShare` | proton/links.go:104-113 | below the root, the content key ring and the name depend on the share only through the parent link |
| `Drive.ShareKeyRing` | proton/share.go:35-41 | `KeyNotFound` when the share's address has no key ring; otherwise the share-level derivation from that address key ring; success only for an address the session holds a key ring for |
| `Drive.ShareName` | proton/share.go:20-23 | the root link's name; no error is possible |
| `Drive.ShareListChildren` | proton/share.go:25-28 | the children of the root link, as `Link.ListChildren` gives them |
| `Drive.ShareResolvePath` | proton/share.go:30-33 | resolution from the root link; a slashes-only path gives the root link |
| `Volumes.ListShareMetadata` | proton/volume.go:19-33 | a listing error is returned with no list; otherwise the listing filtered to the volume, built by appending in order |
| `Volumes.OnVolume` | proton/volume.go:25-30 | never longer than the listing and every kept entry lies on the volume (exact contents and order in `OnVolumeCounts`, `OnVolumeIsSubsequence`) |
| `Volumes.OnVolumeCounts` | proton/volume.go:26-30 | every entry of the volume is kept as many times as listed, every entry of another volume dropped |
| `Volumes.OnVolumeMembers` | proton/volume.go:26-30 | an entry is in the result exactly when it is listed and its `VolumeID` is the volume's |
| `Volumes.OnVolumeIsSubsequence` | proton/volume.go:26-30 | the result is an order-preserving subsequence of the listing |
| `Volumes.GetShareMetadata` | proton/volume.go:41-54 | a listing error is returned; otherwise the first entry with the share ID on this volume, or the zero entry with no error |
| `Volumes.GetShare` | proton/volume.go:56-68 | a fetch error is returned; a share of another volume gives no share and no error; a share of this volume is returned unchanged |
| `Sessions.SessionFromConfig` | proton/session.go:46-82 | empty UID, then empty access token, then empty refresh token are reported in that order with no client call; then a client is made and asked for the user and the addresses, whose errors are returned; success is a locked session holding exactly the client's answers, with an empty address table |
| `Addresses.AddressTypeString` | proton/address.go:11-20 | types 1..5 print as original, alias, custom, premium, external and no other value prints so; other values print "Unknown Status (n)"; the table index is in bounds |
| `Addresses.AddressStatusString` | proton/address.go:24-31 | statuses 0..2 print as disabled, enabled, deleting and no other value prints so; other values print "Unknown Status (n)" |
| `Addresses.AddressTypeStringInjective` | proton/address.go:11-20 | different address types never print the same |
| `Addresses.AddressStatusStringInjective` | proton/address.go:24-31 | different address statuses never print the same |
| `AccountCmd.AddrTypeLabel` | cmd/account/address.go:49-64 | the five address types map to their lower-case names and nothing else does; other values give "Unknown (n)" |
| `AccountCmd.AddrStatusLabel` | cmd/account/address.go:66-77 | disabled, enabled, deleting for 0, 1, 2 and nothing else; other values give "Unknown (n)" |
| `AccountCmd.AddrTypeLabelInjective` | cmd/account/address.go:49-64 | the type column identifies the type |
| `AccountCmd.AddrStatusLabelInjective` | cmd/account/address.go:66-77 | the status column identifies the status |
| `AccountCmd.LabelsAgreeWithStringers` | cmd/account/address.go:49-77 | the command labels equal the `String` methods of proton/address.go exactly on the known values |
| `ShareCmd.ShareTypeLabel` | cmd/share/list.go:46-57 | main, standard, device for 1, 2, 3 and nothing else; other values give "Unknown (n)" |
| `ShareCmd.ShareStateLabel` | cmd/share/list.go:59-68 | active and deleted for 1 and 2 and nothing else; other values give "Unknown (n)" |
| `ShareCmd.ShareFlagsLabel` | cmd/share/list.go:70-79 | none and primary for 0 and 1 and nothing else; other values give "Unknown (n)" |
| `ShareCmd.ShareTypeLabelInjective` | cmd/share/list.go:46-57 | the type column identifies the share type |
| `ShareCmd.ShareStateLabelInjective` | cmd/share/list.go:59-68 | the state column identifies the share state |
| `ShareCmd.ShareFlagsLabelInjective` | cmd/share/list.go:70-79 | the flags column identifies the flags value |
| `VolumeCmd.VolStateLabel` | cmd/volume/list.go:59-68 | Active and Locked for 1 and 3 and nothing else; other values give "Unknown (n)" |
| `VolumeCmd.VolStateLabelInjective` | cmd/volume/list.go:59-68 | the state column identifies the volume state |
| `VolumeCmd.VolSpaceLabel` | cmd/volume/list.go:51-57 | a volume with no quota prints "unlimited" |
| `Decimal.FormatInt` | proton/address.go:15 | `%d`: at least one character, a leading minus exactly for negative values, decimal digits after it, a leading `0` exactly for zero and never right after the minus, so the output is always canonical (no leading zeros, no `-0`) |
| `Decimal.FormatParseInt` | proton/address.go:28 | every canonical decimal string is what `%d` prints for the value it reads as, so together with `ParseFormatInt` the printed strings are exactly the canonical ones |
| `Decimal.ParseFormatInt` | cmd/account/address.go:62 | reading back what `%d` printed gives the printed integer |
| `Decimal.WrappedInjective` | cmd/share/list.go:55 | two "Unknown (n)" labels are equal only for equal n |
| `GoStrings.TrimLeft` | proton/links.go:98 | a suffix of the input, everything dropped is the cut character, and the result does not start with it |
| `GoStrings.TrimRight` | proton/links.go:98 | a prefix of the input, everything dropped is the cut character, and the result does not end with it |
| `GoStrings.Trim` | proton/links.go:98 | `strings.Trim` with one cut character: the result neither starts nor ends with it |
| `GoStrings.TrimEmptyIff` | proton/links.go:98 | a path trims to nothing exactly when it is slashes only |
| `GoStrings.TrimDropsTrailing` | proton/links.go:98 | a trailing slash never changes the trimmed path |
| `GoStrings.Split` | proton/links.go:99 | splitting gives at least one piece and no piece contains the separator |
| `GoStrings.SplitJoin` | proton/links.go:99 | splitting a joined list of separator-free pieces gives the pieces back |
| `GoStrings.JoinSplit` | proton/links.go:99 | joining the pieces of a split gives the original string back |

## Left out

- The concurrent share lister (bounded worker pool over share IDs) and top-level
  path resolution by share name: neither is in the source files modelled here.
- `Session.Unlock`, login, session persistence, prompting, `SessionFromCredentials`:
  I/O and network orchestration outside this model.
- `Session.newLink`, `Session.GetShare` and the decryption of a link's name into
  `Link.Name`: not part of this model; they are parameters.
- The PGP primitives and the contents of key rings: uninterpreted.
- `context.Context`, cancellation and all `slog` logging: no effect on results.
- The display fields of `Link` (`Size`, `State`, `XAttr`, the three times) and the
  unused `Share.keyRing` field: no shown logic reads them.
- Nil key-ring pointers inside a `Link`: the model's links always hold key rings,
  since the code that builds links is not part of this model.
- Go's distinction between a nil slice and an empty one (`ListShareMetadata` with no
  match returns nil): both are the empty sequence here.
- `VolumeCmd.VolSpaceLabel`: the non-nil branch goes through `units.BytesSize` on a
  float, which is a parameter here, so only the nil branch is stated precisely.
- Go's 64-bit `int` for the enum values: the labels are defined and proved for every
  integer, so the width does not matter.
- The duplicated `ErrorMissing*` variables of proton/errors.go and proton/session.go,
  and the second `SessionConfig` of proton/session_config.go: one definition is used.
