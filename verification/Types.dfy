/** The rows, access entries and inputs of the metadata store, as values. */
module Types {

  type Octet = x: int | 0 <= x < 256
  type Bytes = seq<Octet>

  // A ULID or object key as text; "" stands for "none", as it does in the store.
  type Id = string
  const NO_ID: Id := ""

  // Nanoseconds since the zero instant of the clock.
  type Time = int
  const ZERO_TIME: Time := 0

  datatype Option<+T> = None | Some(value: T)

  datatype Error =
    | NotFound
    | LegalHold
    | ChainAdvanced
    | ChainLive
    | NotBundleable
    | InvalidClass
    | Gone
    | Unreadable
    | Packaging

  datatype Result<+T> = Ok(value: T) | Err(error: Error)

  datatype Kind = Source | Container | Pdf
  datatype Status = Received | Signing | Signed | Expired | Deleted
  datatype RetentionClass = Ttl | Durable
  datatype PrincipalKind = Sub | Serial | Product
  datatype Right = Read | CoSign | Other(name: string)

  datatype ManifestFile = ManifestFile(name: string, mediaType: string, size: nat)

  datatype Document = Document(
    id: Id,
    owner: string,
    tenantId: string,
    kind: Kind,
    parentId: Id,
    filename: string,
    storageRef: Id,
    contentHash: string,
    mime: string,
    size: nat,
    status: Status,
    encryptionKeyRef: string,
    preservationClass: string,
    retentionClass: Option<RetentionClass>,
    retentionUntil: Option<Time>,
    legalHold: bool,
    signedAt: Option<Time>,
    resultFrozen: bool,
    innerFiles: seq<ManifestFile>,
    createdAt: Time,
    updatedAt: Time)

  // One standing access entry: a principal on a chain root.
  datatype Grant = Grant(chainRoot: Id, kind: PrincipalKind, principal: string, rights: seq<Right>)

  datatype Caller = Caller(sub: string, serial: string, product: string, tenant: string)

  datatype PurgedRef = PurgedRef(id: Id, storageRef: Id, encryptionKeyRef: string)

  datatype InsertInput = InsertInput(
    owner: string,
    tenantId: string,
    kind: Option<Kind>,
    parentId: Id,
    filename: string,
    storageRef: Id,
    contentHash: string,
    mime: string,
    size: nat,
    status: Option<Status>,
    encryptionKeyRef: string,
    preservationClass: string,
    ownerKind: Option<PrincipalKind>,
    retentionClass: Option<RetentionClass>,
    retentionUntil: Option<Time>,
    innerFiles: seq<ManifestFile>)

  datatype ReplaceInput = ReplaceInput(
    id: Id,
    expectedHash: string,
    storageRef: Id,
    contentHash: string,
    size: nat,
    encryptionKeyRef: string,
    preservationClass: string)

  datatype BundleInput = BundleInput(
    owner: string,
    tenantId: string,
    sourceIds: seq<Id>,
    filename: string,
    storageRef: Id,
    contentHash: string,
    mime: string,
    size: nat,
    encryptionKeyRef: string,
    preservationClass: string,
    retentionUntil: Time,
    innerFiles: seq<ManifestFile>)

  datatype RebundleInput = RebundleInput(
    owner: string,
    id: Id,
    expectedHash: string,
    storageRef: Id,
    contentHash: string,
    size: nat,
    encryptionKeyRef: string,
    innerFiles: seq<ManifestFile>,
    absorbSourceIds: seq<Id>)

  datatype GrantInput = GrantInput(docId: Id, kind: PrincipalKind, principal: string, rights: seq<Right>)

  function Elements<T>(s: seq<T>): set<T> { set x | x in s }

  predicate Terminal(status: Status) { status.Expired? || status.Deleted? }

  // What may ride into a bundle: an unsigned source or an already signed file.
  predicate Bundleable(kind: Kind, status: Status) {
    (kind.Source? && status.Received?) || (!kind.Source? && status.Signed?)
  }

  // ---- The canonical form of an identity code (trim, then upper case) -------------

  predicate IsSpace(c: char) { c == ' ' || '\t' <= c <= '\r' }

  function UpperChar(c: char): char {
    if 'a' <= c <= 'z' then (c as int - 32) as char else c
  }

  function Upper(s: string): (r: string)
    ensures |r| == |s| && forall i | 0 <= i < |s| :: r[i] == UpperChar(s[i])
  {
    seq(|s|, i requires 0 <= i < |s| => UpperChar(s[i]))
  }

  function TrimLeft(s: string): (r: string)
    ensures r == [] || !IsSpace(r[0])
    ensures (s == [] || !IsSpace(s[0])) ==> r == s
  {
    if s != [] && IsSpace(s[0]) then TrimLeft(s[1..]) else s
  }

  function TrimRight(s: string): (r: string)
    ensures r <= s
    ensures r == [] || !IsSpace(r[|r| - 1])
    ensures (s == [] || !IsSpace(s[|s| - 1])) ==> r == s
  {
    if s != [] && IsSpace(s[|s| - 1]) then TrimRight(s[..|s| - 1]) else s
  }

  function NormalizeSerial(s: string): string { Upper(TrimRight(TrimLeft(s))) }

  /** A stored serial is already canonical, so normalizing it again finds the same entry. */
  lemma NormalizeIdempotent(s: string)
    ensures NormalizeSerial(NormalizeSerial(s)) == NormalizeSerial(s)
  {
    var t := TrimRight(TrimLeft(s));
    var u := Upper(t);
    assert t != [] ==> t[0] == TrimLeft(s)[0];
    assert forall c :: IsSpace(UpperChar(c)) == IsSpace(c);
    assert TrimLeft(u) == u && TrimRight(u) == u;
    assert Upper(u) == u;
  }
}
