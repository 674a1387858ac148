/** The metadata store as a state machine over values: what each call refuses, and the state
    an accepted call leaves behind. */
module Metadata {
  import opened Types

  datatype State = State(rows: map<Id, Document>, acl: seq<Grant>)

  // ---- Chains and access -------------------------------------------------------------

  function ChainRootId(d: Document): Id { if d.parentId != NO_ID then d.parentId else d.id }

  predicate Keyed(rows: map<Id, Document>) { forall id | id in rows :: rows[id].id == id }

  // No chain hangs below another: parents and the chains of access entries are roots.
  ghost predicate RootedParents(s: State) {
    && (forall id | id in s.rows && s.rows[id].parentId in s.rows :: s.rows[s.rows[id].parentId].parentId == NO_ID)
    && (forall g | g in s.acl && g.chainRoot in s.rows :: s.rows[g.chainRoot].parentId == NO_ID)
  }

  predicate InChain(d: Document, root: Id) { d.id == root || d.parentId == root }

  function Roots(rows: map<Id, Document>): set<Id> { set id | id in rows :: ChainRootId(rows[id]) }

  predicate TenantMatches(d: Document, caller: Caller) {
    caller.product == "" || d.tenantId == caller.tenant
  }

  // The entry names this caller: by subject, normalized identity code or product.
  predicate HeldBy(g: Grant, root: Id, caller: Caller) {
    && g.chainRoot == root
    && match g.kind
       case Sub => caller.sub != "" && g.principal == caller.sub
       case Serial => NormalizeSerial(caller.serial) != "" && g.principal == NormalizeSerial(caller.serial)
       case Product => caller.product != "" && g.principal == caller.product
  }

  predicate Allows(acl: seq<Grant>, root: Id, caller: Caller, right: Right) {
    exists g | g in acl :: HeldBy(g, root, caller) && right in g.rights
  }

  predicate MayRead(s: State, d: Document, caller: Caller) {
    Allows(s.acl, ChainRootId(d), caller, Read) && TenantMatches(d, caller)
  }

  // The tests the store filters its access list by.
  datatype Criterion =
    | ChainNotIn(roots: set<Id>)
    | ChainIn(roots: set<Id>)
    | NotHeldBy(root: Id, caller: Caller)
  {
    predicate Keeps(g: Grant) {
      match this
      case ChainNotIn(roots) => g.chainRoot !in roots
      case ChainIn(roots) => g.chainRoot in roots
      case NotHeldBy(root, caller) => !HeldBy(g, root, caller)
    }
  }

  function Kept(acl: seq<Grant>, c: Criterion): seq<Grant> {
    if acl == [] then []
    else if c.Keeps(acl[|acl| - 1]) then Kept(acl[..|acl| - 1], c) + [acl[|acl| - 1]]
    else Kept(acl[..|acl| - 1], c)
  }

  predicate SameEntry(a: Grant, b: Grant) {
    a.chainRoot == b.chainRoot && a.kind == b.kind && a.principal == b.principal
  }

  // A re-grant replaces the rights of the first entry with the same key.
  function Upsert(acl: seq<Grant>, g: Grant): seq<Grant> {
    if acl == [] then [g]
    else if SameEntry(acl[0], g) then [acl[0].(rights := g.rights)] + acl[1..]
    else [acl[0]] + Upsert(acl[1..], g)
  }

  // ---- Insert ------------------------------------------------------------------------

  function KindOf(input: InsertInput): Kind { if input.kind.Some? then input.kind.value else Source }

  function StatusOf(input: InsertInput): Status { if input.status.Some? then input.status.value else Received }

  // A live row that already is the chain's signed artifact of this form.
  predicate Blocks(d: Document, kind: Kind, parent: Id) {
    && d.kind == kind
    && !d.status.Deleted?
    && (d.parentId == parent || (kind.Pdf? && d.id == parent))
  }

  predicate InsertBlocked(s: State, input: InsertInput) {
    && !KindOf(input).Source?
    && input.parentId != NO_ID
    && exists id | id in s.rows :: Blocks(s.rows[id], KindOf(input), input.parentId)
  }

  function OrNone(class_: string): string { if class_ == "" then "none" else class_ }

  function NewRow(input: InsertInput, id: Id, now: Time): Document {
    Document(
      id, input.owner, input.tenantId, KindOf(input), input.parentId, input.filename,
      input.storageRef, input.contentHash, input.mime, input.size, StatusOf(input),
      input.encryptionKeyRef, OrNone(input.preservationClass),
      if input.retentionClass.Some? then input.retentionClass else Some(Ttl),
      input.retentionUntil, false, None, false, input.innerFiles, now, now)
  }

  function OwnerGrant(input: InsertInput, id: Id): Grant {
    var kind := if input.ownerKind.Some? then input.ownerKind.value else Sub;
    Grant(id, kind, input.owner, if kind.Product? then [Read] else [Read, CoSign])
  }

  function Inserted(s: State, input: InsertInput, id: Id, now: Time): State {
    State(
      s.rows[id := NewRow(input, id, now)],
      if input.parentId == NO_ID then s.acl + [OwnerGrant(input, id)] else s.acl)
  }

  // ---- ReplaceContainerBlob ------------------------------------------------------------

  predicate ValidClass(class_: string) {
    class_ == "" || class_ == "none" || class_ == "b_lt" || class_ == "preservation"
  }

  function ReplaceRefusal(s: State, input: ReplaceInput): Option<Error> {
    if !ValidClass(input.preservationClass) then Some(InvalidClass)
    else if input.id !in s.rows || s.rows[input.id].status.Deleted? || s.rows[input.id].kind.Source? then Some(NotFound)
    else if s.rows[input.id].contentHash != input.expectedHash then Some(ChainAdvanced)
    else None
  }

  function ReplacedRow(d: Document, input: ReplaceInput, now: Time): Document {
    d.(
      storageRef := input.storageRef,
      contentHash := input.contentHash,
      size := input.size,
      encryptionKeyRef := input.encryptionKeyRef,
      status := Signed,
      signedAt := Some(now),
      preservationClass := if input.preservationClass != "" then input.preservationClass else d.preservationClass,
      updatedAt := now)
  }

  // ---- Bundle and Rebundle ---------------------------------------------------------------

  function AbsorbRefusal(rows: map<Id, Document>, id: Id, owner: string): Option<Error> {
    if id !in rows || rows[id].owner != owner || Terminal(rows[id].status) then Some(NotFound)
    else if !Bundleable(rows[id].kind, rows[id].status) then Some(NotBundleable)
    else if rows[id].legalHold then Some(LegalHold)
    else None
  }

  // The first fault met going through the sources in order; a bundle also refuses repeats.
  function FirstFault(rows: map<Id, Document>, ids: seq<Id>, i: nat, owner: string, distinct: bool): Option<Error>
    requires i <= |ids|
    decreases |ids| - i
  {
    if i == |ids| then None
    else if distinct && ids[i] in ids[..i] then Some(NotBundleable)
    else if AbsorbRefusal(rows, ids[i], owner).Some? then AbsorbRefusal(rows, ids[i], owner)
    else FirstFault(rows, ids, i + 1, owner, distinct)
  }

  function BundleRefusal(s: State, input: BundleInput): Option<Error> {
    if |input.sourceIds| < 1 then Some(NotBundleable)
    else FirstFault(s.rows, input.sourceIds, 0, input.owner, true)
  }

  function BundleRow(input: BundleInput, id: Id, now: Time): Document {
    Document(
      id, input.owner, input.tenantId, Container, NO_ID, input.filename, input.storageRef,
      input.contentHash, input.mime, input.size, Received, input.encryptionKeyRef,
      OrNone(input.preservationClass), None, Some(input.retentionUntil), false, None, false,
      input.innerFiles, now, now)
  }

  function Bundled(s: State, input: BundleInput, id: Id, now: Time): State {
    var gone := Elements(input.sourceIds);
    State(
      s.rows[id := BundleRow(input, id, now)] - gone,
      Kept(s.acl + [Grant(id, Sub, input.owner, [Read, CoSign])], ChainNotIn(gone)))
  }

  function RebundleRefusal(s: State, input: RebundleInput): Option<Error> {
    if input.id !in s.rows || s.rows[input.id].owner != input.owner || Terminal(s.rows[input.id].status) then
      Some(NotFound)
    else
      var d := s.rows[input.id];
      if !d.kind.Container? || !d.status.Received? then Some(NotBundleable)
      else if d.legalHold then Some(LegalHold)
      else if d.contentHash != input.expectedHash then Some(ChainAdvanced)
      else FirstFault(s.rows, input.absorbSourceIds, 0, input.owner, false)
  }

  function RebundledRow(d: Document, input: RebundleInput, now: Time): Document {
    d.(
      storageRef := input.storageRef,
      contentHash := input.contentHash,
      size := input.size,
      encryptionKeyRef := input.encryptionKeyRef,
      innerFiles := input.innerFiles,
      updatedAt := now)
  }

  function Rebundled(s: State, input: RebundleInput, now: Time): State
    requires input.id in s.rows
  {
    var gone := Elements(input.absorbSourceIds);
    State(
      s.rows[input.id := RebundledRow(s.rows[input.id], input, now)] - gone,
      Kept(s.acl, ChainNotIn(gone)))
  }

  // ---- Grant and RemoveAccess --------------------------------------------------------------

  function Granted(s: State, input: GrantInput): State
    requires input.docId in s.rows
  {
    var principal := if input.kind.Serial? then NormalizeSerial(input.principal) else input.principal;
    var rights := if input.rights == [] then [Read, CoSign] else input.rights;
    s.(acl := Upsert(s.acl, Grant(ChainRootId(s.rows[input.docId]), input.kind, principal, rights)))
  }

  predicate ChainHeld(rows: map<Id, Document>, root: Id) {
    exists id | id in rows :: InChain(rows[id], root) && rows[id].legalHold
  }

  function RemoveRefusal(s: State, docId: Id, caller: Caller): Option<Error> {
    if docId !in s.rows || !MayRead(s, s.rows[docId], caller) then Some(NotFound)
    else if ChainHeld(s.rows, ChainRootId(s.rows[docId])) then Some(LegalHold)
    else None
  }

  predicate Shared(acl: seq<Grant>, root: Id) { exists g | g in acl :: g.chainRoot == root }

  function PurgedRow(d: Document, now: Time): Document {
    d.(status := Deleted, storageRef := NO_ID, encryptionKeyRef := "", updatedAt := now)
  }

  // The rows the last removal purges: every row of the chain not deleted already.
  function Undeleted(rows: map<Id, Document>, root: Id): set<Id> {
    set id | id in rows && InChain(rows[id], root) && !rows[id].status.Deleted?
  }

  function PurgeRows(rows: map<Id, Document>, ids: set<Id>, now: Time): map<Id, Document> {
    map id | id in rows :: if id in ids then PurgedRow(rows[id], now) else rows[id]
  }

  function AccessRemoved(s: State, docId: Id, caller: Caller, now: Time): State
    requires docId in s.rows
  {
    var root := ChainRootId(s.rows[docId]);
    var acl := Kept(s.acl, NotHeldBy(root, caller));
    State(if Shared(acl, root) then s.rows else PurgeRows(s.rows, Undeleted(s.rows, root), now), acl)
  }

  // ---- Retention and history ----------------------------------------------------------------

  predicate Due(d: Document, now: Time) {
    !d.legalHold && !Terminal(d.status) && d.retentionUntil.Some? && d.retentionUntil.value < now
  }

  function Eligible(rows: map<Id, Document>, now: Time): set<Id> {
    set id | id in rows && Due(rows[id], now)
  }

  function ExpiredRow(d: Document, clock: Time): Document {
    d.(status := Expired, storageRef := NO_ID, encryptionKeyRef := "", updatedAt := clock)
  }

  function ExpireRows(rows: map<Id, Document>, ids: set<Id>, clock: Time): map<Id, Document> {
    map id | id in rows :: if id in ids then ExpiredRow(rows[id], clock) else rows[id]
  }

  predicate Stale(d: Document, before: Time) { Terminal(d.status) && !d.legalHold && d.updatedAt < before }

  function Erasable(rows: map<Id, Document>, before: Time): set<Id> {
    set id | id in rows && Stale(rows[id], before)
  }

  function HistorySwept(s: State, taken: set<Id>): State {
    var rows := s.rows - taken;
    State(rows, Kept(s.acl, ChainIn(Roots(rows))))
  }

  predicate ChainLiveOrHeld(rows: map<Id, Document>, root: Id) {
    exists id | id in rows ::
      ChainRootId(rows[id]) == root && (!Terminal(rows[id].status) || rows[id].legalHold)
  }

  function OwnedChain(rows: map<Id, Document>, owner: string, root: Id): set<Id> {
    set id | id in rows && ChainRootId(rows[id]) == root && rows[id].owner == owner
  }

  function HistoryRefusal(s: State, owner: string, root: Id): Option<Error> {
    if ChainLiveOrHeld(s.rows, root) then Some(ChainLive)
    else if OwnedChain(s.rows, owner, root) == {} then Some(NotFound)
    else None
  }

  function HistoryDeleted(s: State, owner: string, root: Id): State {
    State(s.rows - OwnedChain(s.rows, owner, root), Kept(s.acl, ChainNotIn({root})))
  }

  function FreezeRefusal(s: State, docId: Id): Option<Error> {
    if docId !in s.rows || ChainRootId(s.rows[docId]) !in s.rows then Some(NotFound) else None
  }

  function ExtendedRow(d: Document, until: Time, now: Time): Document {
    d.(
      retentionUntil :=
        if d.retentionUntil.Some? && d.retentionUntil.value < until then Some(until) else d.retentionUntil,
      updatedAt := now)
  }

  // ---- The transition system ------------------------------------------------------------------

  // One atomic call, with what it draws from outside: fresh ids, the clock, and for a sweep
  // the rows its map iteration happened to reach before the batch filled up.
  datatype Action =
    | Insert(insert: InsertInput, id: Id, now: Time)
    | Replace(replace: ReplaceInput, now: Time)
    | Bundle(bundle: BundleInput, id: Id, now: Time)
    | Rebundle(rebundle: RebundleInput, now: Time)
    | GrantAccess(grant: GrantInput)
    | RemoveAccess(docId: Id, caller: Caller, now: Time)
    | SweepRetention(taken: set<Id>, cutoff: Time, clock: Time)
    | SweepHistory(taken: set<Id>, before: Time)
    | DeleteHistoryChain(owner: string, root: Id)
    | SetResultFreeze(docId: Id, frozen: bool, now: Time)
    | ExtendRetention(docId: Id, owner: string, until: Time, now: Time)
    | SetLegalHold(docId: Id, held: bool) // an operator's decision, made outside the service

  function Refusal(s: State, a: Action): Option<Error> {
    match a
    case Insert(input, _, _) => if InsertBlocked(s, input) then Some(ChainAdvanced) else None
    case Replace(input, _) => ReplaceRefusal(s, input)
    case Bundle(input, _, _) => BundleRefusal(s, input)
    case Rebundle(input, _) => RebundleRefusal(s, input)
    case GrantAccess(input) => if input.docId in s.rows then None else Some(NotFound)
    case RemoveAccess(docId, caller, _) => RemoveRefusal(s, docId, caller)
    case SweepRetention(_, _, _) => None
    case SweepHistory(_, _) => None
    case DeleteHistoryChain(owner, root) => HistoryRefusal(s, owner, root)
    case SetResultFreeze(docId, _, _) => FreezeRefusal(s, docId)
    case ExtendRetention(docId, owner, _, _) =>
      if docId in s.rows && s.rows[docId].owner == owner then None else Some(NotFound)
    case SetLegalHold(docId, _) => if docId in s.rows then None else Some(NotFound)
  }

  function Apply(s: State, a: Action): State {
    if Refusal(s, a).Some? then s
    else
      match a
      case Insert(input, id, now) => Inserted(s, input, id, now)
      case Replace(input, now) => s.(rows := s.rows[input.id := ReplacedRow(s.rows[input.id], input, now)])
      case Bundle(input, id, now) => Bundled(s, input, id, now)
      case Rebundle(input, now) => Rebundled(s, input, now)
      case GrantAccess(input) => Granted(s, input)
      case RemoveAccess(docId, caller, now) => AccessRemoved(s, docId, caller, now)
      case SweepRetention(taken, _, clock) => s.(rows := ExpireRows(s.rows, taken, clock))
      case SweepHistory(taken, _) => HistorySwept(s, taken)
      case DeleteHistoryChain(owner, root) => HistoryDeleted(s, owner, root)
      case SetResultFreeze(docId, frozen, now) =>
        var root := ChainRootId(s.rows[docId]);
        s.(rows := s.rows[root := s.rows[root].(resultFrozen := frozen, updatedAt := now)])
      case ExtendRetention(docId, _, until, now) =>
        s.(rows := s.rows[docId := ExtendedRow(s.rows[docId], until, now)])
      case SetLegalHold(docId, held) => s.(rows := s.rows[docId := s.rows[docId].(legalHold := held)])
  }

  function RefOf(d: Document): PurgedRef { PurgedRef(d.id, d.storageRef, d.encryptionKeyRef) }

  // The rows whose bytes an accepted call hands back for destruction.
  function Released(s: State, a: Action): set<Id> {
    if Refusal(s, a).Some? then {}
    else
      match a
      case Replace(input, _) => {input.id}
      case Bundle(input, _, _) => Elements(input.sourceIds)
      case Rebundle(input, _) => {input.id} + Elements(input.absorbSourceIds)
      case RemoveAccess(docId, caller, _) =>
        var root := ChainRootId(s.rows[docId]);
        if Shared(Kept(s.acl, NotHeldBy(root, caller)), root) then {} else Undeleted(s.rows, root)
      case SweepRetention(taken, _, _) => taken
      case _ => {}
  }

  // The object keys the given rows refer to (rows already purged have none).
  function RefsAmong(rows: map<Id, Document>, ids: set<Id>): set<Id> {
    set id | id in ids && id in rows && rows[id].storageRef != NO_ID :: rows[id].storageRef
  }

  // The object keys an accepted call hands back for destruction.
  function Freed(s: State, a: Action): set<Id> { RefsAmong(s.rows, Released(s, a)) }

  function LiveRefs(rows: map<Id, Document>): set<Id> {
    set id | id in rows && rows[id].storageRef != NO_ID :: rows[id].storageRef
  }

  // ---- Facts about the access-list filters ------------------------------------------------------

  lemma {:induction false} KeptIsFilter(acl: seq<Grant>, c: Criterion, g: Grant)
    ensures g in Kept(acl, c) <==> g in acl && c.Keeps(g)
  {
    if acl != [] {
      var init, last := acl[..|acl| - 1], acl[|acl| - 1];
      KeptIsFilter(init, c, g);
      assert acl == init + [last];
    }
  }

  /** The filter works entry by entry: what is kept stays in order. */
  lemma {:induction false} KeptSplits(xs: seq<Grant>, ys: seq<Grant>, c: Criterion)
    ensures Kept(xs + ys, c) == Kept(xs, c) + Kept(ys, c)
  {
    if ys == [] {
      assert xs + ys == xs;
    } else {
      KeptSplits(xs, ys[..|ys| - 1], c);
      assert (xs + ys)[..|xs + ys| - 1] == xs + ys[..|ys| - 1];
    }
  }

  /** Filtering by one set of chains and then another is filtering by their union, in order. */
  lemma {:induction false} KeptTwice(acl: seq<Grant>, a: set<Id>, b: set<Id>)
    ensures Kept(Kept(acl, ChainNotIn(a)), ChainNotIn(b)) == Kept(acl, ChainNotIn(a + b))
  {
    if acl != [] {
      var init, last := acl[..|acl| - 1], acl[|acl| - 1];
      KeptTwice(init, a, b);
      if last.chainRoot !in a {
        assert Kept(acl, ChainNotIn(a))[..|Kept(acl, ChainNotIn(a))| - 1] == Kept(init, ChainNotIn(a));
      }
    }
  }

  lemma {:induction false} KeptAll(acl: seq<Grant>)
    ensures Kept(acl, ChainNotIn({})) == acl
  {
    if acl != [] {
      KeptAll(acl[..|acl| - 1]);
    }
  }

  lemma NoFault(rows: map<Id, Document>, ids: seq<Id>, i: nat, owner: string, distinct: bool)
    requires i <= |ids| && FirstFault(rows, ids, i, owner, distinct).None?
    ensures forall j | i <= j < |ids| :: AbsorbRefusal(rows, ids[j], owner).None?
    ensures distinct ==> forall j | i <= j < |ids| :: ids[j] !in ids[..j]
    decreases |ids| - i
  {
    if i < |ids| {
      NoFault(rows, ids, i + 1, owner, distinct);
    }
  }
}
