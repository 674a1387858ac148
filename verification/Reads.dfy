/** What each read of the metadata store answers, as functions of the state, and the laws
    that tie the answers together. */
module Reads {
  import opened Types
  import opened Paging
  import opened Metadata

  // ---- One row -----------------------------------------------------------------------

  function Get(s: State, id: Id, caller: Caller): Result<Document> {
    if id !in s.rows || !MayRead(s, s.rows[id], caller) then Err(NotFound)
    else
      var d := s.rows[id];
      var root := ChainRootId(d);
      Ok(if root in s.rows then d.(resultFrozen := s.rows[root].resultFrozen) else d)
  }

  function ContainersOf(rows: map<Id, Document>, parent: Id): set<Id> {
    set id | id in rows && rows[id].kind.Container? && rows[id].parentId == parent && !rows[id].status.Deleted?
  }

  function SignedPdfsOf(rows: map<Id, Document>, parent: Id): set<Id> {
    set id | id in rows && rows[id].kind.Pdf? && InChain(rows[id], parent) && !rows[id].status.Deleted?
  }

  // The single-row answer of a search: nothing, or the given row when there is a candidate.
  ghost predicate Answers(s: State, parent: Id, caller: Caller, found: set<Id>, r: Result<Document>) {
    if parent == NO_ID || !Allows(s.acl, parent, caller, Read) || found == {} then r == Err(NotFound)
    else r.Ok? && r.value.id in found && r.value.id in s.rows && r.value == s.rows[r.value.id]
  }

  // ---- Chain heads -------------------------------------------------------------------

  // A signed artifact outranks the plain source; between equals the newer id wins.
  predicate HeadOutranks(a: Document, b: Document) {
    if a.kind.Source? != b.kind.Source? then b.kind.Source? else Less(b.id, a.id)
  }

  /** Ranking heads is a strict total order on rows with different ids. */
  lemma OutranksIsTotalOrder(a: Document, b: Document, c: Document)
    ensures !HeadOutranks(a, a)
    ensures HeadOutranks(a, b) && HeadOutranks(b, c) ==> HeadOutranks(a, c)
    ensures a.id != b.id ==> HeadOutranks(a, b) || HeadOutranks(b, a)
    ensures !(HeadOutranks(a, b) && HeadOutranks(b, a))
  {
    LessIrreflexive(a.id);
    LessTotal(a.id, b.id);
    if Less(b.id, a.id) && Less(a.id, b.id) {
      LessTransitive(a.id, b.id, a.id);
    }
    if Less(c.id, b.id) && Less(b.id, a.id) {
      LessTransitive(c.id, b.id, a.id);
    }
  }

  ghost predicate IsHead(rows: map<Id, Document>, among: set<Id>, h: Id)
    requires among <= rows.Keys
  {
    h in among && forall id | id in among :: id == h || HeadOutranks(rows[h], rows[id])
  }

  // Meeting one more row: the better of the two leads.
  lemma HeadOfOneMore(rows: map<Id, Document>, among: set<Id>, h: Id, id: Id)
    requires Keyed(rows) && among <= rows.Keys && id in rows && id !in among
    requires IsHead(rows, among, h)
    ensures IsHead(rows, among + {id}, if HeadOutranks(rows[id], rows[h]) then id else h)
  {
    OutranksIsTotalOrder(rows[id], rows[h], rows[h]);
    forall x | x in among {
      OutranksIsTotalOrder(rows[id], rows[h], rows[x]);
    }
  }

  lemma {:induction false} HeadExists(rows: map<Id, Document>, among: set<Id>)
    requires Keyed(rows) && among <= rows.Keys && among != {}
    ensures exists h :: IsHead(rows, among, h)
    decreases |among|
  {
    var id :| id in among;
    var rest := among - {id};
    assert among == rest + {id};
    if rest == {} {
      assert IsHead(rows, among, id);
    } else {
      HeadExists(rows, rest);
      var h :| IsHead(rows, rest, h);
      HeadOfOneMore(rows, rest, h, id);
    }
  }

  /** Every order of visiting the rows finds the same head. */
  lemma HeadUnique(rows: map<Id, Document>, among: set<Id>, g: Id, h: Id)
    requires among <= rows.Keys && IsHead(rows, among, g) && IsHead(rows, among, h)
    ensures g == h
  {
    if g != h {
      OutranksIsTotalOrder(rows[g], rows[h], rows[g]);
    }
  }

  ghost function HeadOf(rows: map<Id, Document>, among: set<Id>): (h: Id)
    requires Keyed(rows) && among <= rows.Keys && among != {}
    ensures IsHead(rows, among, h)
  {
    HeadExists(rows, among);
    var h :| IsHead(rows, among, h);
    h
  }

  // ---- The chain projection ------------------------------------------------------------

  datatype Chain = Chain(
    chainRootId: Id,
    id: Id,
    kind: Kind,
    status: Status,
    filename: string,
    mime: string,
    size: nat,
    retentionUntil: Option<Time>,
    legalHold: bool,
    preservationClass: string,
    hasSignatures: bool,
    platformSigned: bool,
    resultFrozen: bool,
    innerFiles: seq<ManifestFile>,
    chainCreatedAt: Time,
    createdAt: Time,
    updatedAt: Time)

  predicate ChainHasSignatures(d: Document) { !d.kind.Source? || d.signedAt.Some? }

  predicate ChainPlatformSigned(d: Document) { d.parentId != NO_ID || d.signedAt.Some? }

  function Project(rows: map<Id, Document>, root: Id, h: Document, inner: seq<ManifestFile>): Chain {
    Chain(
      root, h.id, h.kind, h.status, h.filename, h.mime, h.size, h.retentionUntil, h.legalHold,
      h.preservationClass, ChainHasSignatures(h), ChainPlatformSigned(h),
      root in rows && rows[root].resultFrozen, inner,
      if root in rows then rows[root].createdAt else h.createdAt, h.createdAt, h.updatedAt)
  }

  function ChainKey(c: Chain): Key { Key(c.updatedAt, c.chainRootId) }

  function LiveRows(rows: map<Id, Document>, root: Id): set<Id> {
    set id | id in rows && ChainRootId(rows[id]) == root && !rows[id].status.Deleted?
  }

  ghost function LiveHead(rows: map<Id, Document>, root: Id): Document
    requires Keyed(rows) && LiveRows(rows, root) != {}
  {
    rows[HeadOf(rows, LiveRows(rows, root))]
  }

  // The roots of the chains a caller's listing shows.
  ghost function ListedRoots(s: State, caller: Caller, includeExpired: bool): set<Id>
    requires Keyed(s.rows)
  {
    set root | root in Roots(s.rows)
      && Allows(s.acl, root, caller, Read)
      && LiveRows(s.rows, root) != {}
      && (includeExpired || !LiveHead(s.rows, root).status.Expired?)
  }

  ghost function ListedKeys(s: State, caller: Caller, includeExpired: bool): set<Key>
    requires Keyed(s.rows)
  {
    set root | root in ListedRoots(s, caller, includeExpired) && LiveRows(s.rows, root) != {} ::
      Key(LiveHead(s.rows, root).updatedAt, root)
  }

  // A listing row leaves the inner files out; the single-chain read carries them.
  ghost function ListedChain(s: State, root: Id): Chain
    requires Keyed(s.rows) && LiveRows(s.rows, root) != {}
  {
    Project(s.rows, root, LiveHead(s.rows, root), [])
  }

  ghost function GetChain(s: State, caller: Caller, id: Id): Result<Chain>
    requires Keyed(s.rows)
  {
    if id !in s.rows then Err(NotFound)
    else
      var root := ChainRootId(s.rows[id]);
      if !Allows(s.acl, root, caller, Read) || LiveRows(s.rows, root) == {} then Err(NotFound)
      else var h := LiveHead(s.rows, root); Ok(Project(s.rows, root, h, h.innerFiles))
  }

  // The listing cursor: "<last action>|<root>". Without an id it is the first page; without
  // an instant it is the older bare-root form.
  datatype Cursor = Cursor(at: Time, root: Id)
  {
    predicate Leaves(k: Key) {
      root == NO_ID || (if at != ZERO_TIME then Before(k, Key(at, root)) else Less(k.id, root))
    }
  }

  ghost function LeftBy(keys: set<Key>, cursor: Cursor): set<Key> { set k | k in keys && cursor.Leaves(k) }

  function CapOf(limit: int, default_: nat): nat { if limit <= 0 then default_ else limit }

  /** A cursor taken from the last row of a page leaves exactly the keys below that row, so the
      pages of ListChains are the pages of the exact keyset walk. */
  lemma ChainCursorIsExact(keys: set<Key>, k: Key)
    requires k.time != ZERO_TIME && k.id != NO_ID
    ensures LeftBy(keys, Cursor(k.time, k.id)) == Below(keys, Some(k))
    ensures forall n: nat :: Take(Descending(LeftBy(keys, Cursor(k.time, k.id))), n) == Page(keys, Some(k), n)
  {}

  lemma FirstChainPage(keys: set<Key>, at: Time, n: nat)
    ensures Take(Descending(LeftBy(keys, Cursor(at, NO_ID))), n) == Page(keys, None, n)
  {
    assert LeftBy(keys, Cursor(at, NO_ID)) == keys;
  }

  // The keys the older cursor leaves: those of smaller roots, or all of them before the first.
  ghost function LeftBare(keys: set<Key>, from: Id): set<Key> { LeftBy(keys, Cursor(ZERO_TIME, from)) }

  lemma BareCursorMovesOn(keys: set<Key>, from: Id, k: Key)
    requires k in LeftBare(keys, from) && k.id != NO_ID
    ensures LeftBare(keys, k.id) < LeftBare(keys, from)
  {
    LessIrreflexive(k.id);
    forall x | x in LeftBare(keys, k.id) ensures x in LeftBare(keys, from) {
      if from != NO_ID {
        LessTransitive(x.id, k.id, from);
      }
    }
    assert k in LeftBare(keys, from) && k !in LeftBare(keys, k.id);
  }

  // What a client of the older cursor collects: each time it hands back the last root it was
  // given, until a page comes back empty.
  ghost function BareWalk(keys: set<Key>, from: Id, limit: nat): seq<Key>
    requires 0 < limit && forall k | k in keys :: k.id != NO_ID
    decreases LeftBare(keys, from)
  {
    var page := Take(Descending(LeftBare(keys, from)), limit);
    if page == [] then []
    else
      PageOf(LeftBare(keys, from), limit);
      BareCursorMovesOn(keys, from, page[|page| - 1]);
      page + BareWalk(keys, page[|page| - 1].id, limit)
  }

  lemma PageOf(left: set<Key>, limit: nat)
    ensures forall k | k in Take(Descending(left), limit) :: k in left
  {
    DescendingIsSorted(left);
    forall k | k in Take(Descending(left), limit) ensures k in left {
      assert k in Elements(Descending(left));
    }
  }

  // Newer roots acted later, and only they.
  ghost predicate RootsFollowActions(keys: set<Key>) {
    forall x, y | x in keys && y in keys :: Less(x.id, y.id) <==> Before(x, y)
  }

  lemma {:induction false} BareWalkIsPaged(keys: set<Key>, from: Id, after: Option<Key>, limit: nat)
    requires 0 < limit && RootsFollowActions(keys) && forall k | k in keys :: k.id != NO_ID
    requires LeftBare(keys, from) == Below(keys, after)
    ensures BareWalk(keys, from, limit) == Paged(keys, after, limit)
    decreases LeftBare(keys, from)
  {
    var page := Page(keys, after, limit);
    if page != [] {
      var last := page[|page| - 1];
      PageOf(Below(keys, after), limit);
      assert last in page && last in Below(keys, after);
      BareCursorMovesOn(keys, from, last);
      BelowIsSuffix(keys, after, |page| - 1);
      assert LeftBare(keys, last.id) == Below(keys, Some(last));
      BareWalkIsPaged(keys, last.id, Some(last), limit);
    }
  }

  // Row by row, the older cursor only ever goes to smaller roots.
  lemma {:induction false} BareWalkGoesDown(keys: set<Key>, from: Id)
    requires forall k | k in keys :: k.id != NO_ID
    ensures forall i | 0 <= i < |BareWalk(keys, from, 1)| :: BareWalk(keys, from, 1)[i] in LeftBare(keys, from)
    ensures forall i, j | 0 <= i < j < |BareWalk(keys, from, 1)| ::
              Less(BareWalk(keys, from, 1)[j].id, BareWalk(keys, from, 1)[i].id)
    decreases LeftBare(keys, from)
  {
    var page := Take(Descending(LeftBare(keys, from)), 1);
    if page != [] {
      var k := page[0];
      PageOf(LeftBare(keys, from), 1);
      BareCursorMovesOn(keys, from, k);
      BareWalkGoesDown(keys, k.id);
      var rest := BareWalk(keys, k.id, 1);
      assert BareWalk(keys, from, 1) == [k] + rest;
      assert forall i | 0 <= i < |rest| :: rest[i] in LeftBare(keys, k.id) && Less(rest[i].id, k.id);
    }
  }

  lemma DescendsAlike(all: seq<Key>, x: Key, y: Key)
    requires StrictlyDescending(all) && x in all && y in all
    requires forall i, j | 0 <= i < j < |all| :: Less(all[j].id, all[i].id)
    ensures Less(x.id, y.id) <==> Before(x, y)
  {
    var i :| 0 <= i < |all| && all[i] == x;
    var j :| 0 <= j < |all| && all[j] == y;
    LessIrreflexive(x.id);
    BeforeIrreflexive(x);
    if i < j {
      if Less(x.id, y.id) {
        LessTransitive(x.id, y.id, x.id);
      }
      if Before(x, y) {
        BeforeTransitive(x, y, x);
      }
    }
  }

  lemma OneByOneShowsTheOrder(keys: set<Key>, limit: nat)
    requires forall k | k in keys :: k.id != NO_ID
    requires limit == 1 && BareWalk(keys, NO_ID, limit) == Descending(keys)
    ensures RootsFollowActions(keys)
  {
    var all := Descending(keys);
    BareWalkGoesDown(keys, NO_ID);
    DescendingIsSorted(keys);
    forall x, y | x in keys && y in keys ensures Less(x.id, y.id) <==> Before(x, y) {
      assert x in Elements(all) && y in Elements(all);
      DescendsAlike(all, x, y);
    }
  }

  // Whatever the page size, the older cursor collects the whole listing in order.
  ghost predicate BareWalkIsExact(keys: set<Key>)
    requires forall k | k in keys :: k.id != NO_ID
  {
    forall limit: nat | 0 < limit :: BareWalk(keys, NO_ID, limit) == Descending(keys)
  }

  /** The older, bare-root cursor collects the whole listing, in order and for every page size,
      exactly when the chains' roots stand in the same order as their last actions. */
  lemma BareRootWalkIsExactIff(keys: set<Key>)
    requires forall k | k in keys :: k.id != NO_ID
    ensures BareWalkIsExact(keys) <==> RootsFollowActions(keys)
  {
    assert LeftBare(keys, NO_ID) == keys == Below(keys, None);
    if RootsFollowActions(keys) {
      forall limit: nat | 0 < limit ensures BareWalk(keys, NO_ID, limit) == Descending(keys) {
        BareWalkIsPaged(keys, NO_ID, None, limit);
        PagingIsExact(keys, None, limit);
      }
    }
    if BareWalkIsExact(keys) {
      var one: nat := 1;
      assert BareWalk(keys, NO_ID, one) == Descending(keys);
      OneByOneShowsTheOrder(keys, one);
    }
  }

  /** A listing whose older root acted last: the bare-root cursor drops the other chain. */
  lemma BareRootCursorDropsAChain()
    ensures var keys := {Key(2, "A"), Key(1, "B")};
            && Descending(keys) == [Key(2, "A"), Key(1, "B")]
            && BareWalk(keys, NO_ID, 1) == [Key(2, "A")]
  {
    var keys := {Key(2, "A"), Key(1, "B")};
    var q := [Key(2, "A"), Key(1, "B")];
    assert Before(Key(1, "B"), Key(2, "A"));
    assert StrictlyDescending(q);
    assert Elements(q) == keys;
    DescendingUnique(q, keys);
    assert !Less("A", "A") && !Less("B", "A");
    assert LeftBare(keys, NO_ID) == keys && LeftBare(keys, "A") == {};
    assert BareWalk(keys, "A", 1) == [];
  }

  // ---- Lists of rows and history ---------------------------------------------------------

  function DocKey(d: Document): Key { Key(ZERO_TIME, d.id) }

  function ReadableIds(s: State, caller: Caller): set<Id> {
    set id | id in s.rows && !s.rows[id].status.Deleted? && MayRead(s, s.rows[id], caller)
  }

  ghost function IdKeys(ids: set<Id>): set<Key> { set id | id in ids :: Key(ZERO_TIME, id) }

  ghost function AfterId(after: Id): Option<Key> { if after == NO_ID then None else Some(Key(ZERO_TIME, after)) }

  predicate TerminalChain(rows: map<Id, Document>, root: Id) {
    forall id | id in rows && ChainRootId(rows[id]) == root :: Terminal(rows[id].status)
  }

  function OwnedTerminal(rows: map<Id, Document>, owner: string, root: Id): set<Id> {
    set id | id in rows && ChainRootId(rows[id]) == root && rows[id].owner == owner && Terminal(rows[id].status)
  }

  function HistoryRoots(rows: map<Id, Document>, owner: string): set<Id> {
    set root | root in Roots(rows) && TerminalChain(rows, root) && OwnedTerminal(rows, owner, root) != {}
  }

  datatype HistoryChain = HistoryChain(
    chainRootId: Id,
    id: Id,
    kind: Kind,
    status: Status,
    filename: string,
    mime: string,
    size: nat,
    hasSignatures: bool,
    platformSigned: bool,
    chainCreatedAt: Time,
    destroyedAt: Time)

  function ProjectHistory(rows: map<Id, Document>, root: Id, h: Document): HistoryChain {
    HistoryChain(
      root, h.id, h.kind, h.status, h.filename, h.mime, h.size, ChainHasSignatures(h), ChainPlatformSigned(h),
      if root in rows then rows[root].createdAt else h.createdAt, h.updatedAt)
  }

  function HistoryKey(c: HistoryChain): Key { Key(ZERO_TIME, c.chainRootId) }

  ghost function HistoryOf(rows: map<Id, Document>, owner: string, root: Id): HistoryChain
    requires Keyed(rows) && OwnedTerminal(rows, owner, root) != {}
  {
    ProjectHistory(rows, root, rows[HeadOf(rows, OwnedTerminal(rows, owner, root))])
  }

  // ---- The chain's retention clock ---------------------------------------------------------

  function Stored(rows: map<Id, Document>, root: Id): set<Id> {
    set id | id in rows && ChainRootId(rows[id]) == root && rows[id].storageRef != NO_ID
  }

  // The latest date among the rows, and never before the zero instant.
  ghost predicate IsLatest(rows: map<Id, Document>, ids: set<Id>, until: Time)
    requires ids <= rows.Keys
  {
    && ZERO_TIME <= until
    && (forall id | id in ids && rows[id].retentionUntil.Some? :: rows[id].retentionUntil.value <= until)
    && (until == ZERO_TIME || exists id | id in ids :: rows[id].retentionUntil == Some(until))
  }

  lemma LatestOfOneMore(rows: map<Id, Document>, ids: set<Id>, until: Time, id: Id)
    requires ids <= rows.Keys && id in rows && IsLatest(rows, ids, until)
    ensures var date := rows[id].retentionUntil;
            IsLatest(rows, ids + {id}, if date.Some? && until < date.value then date.value else until)
  {
    if until != ZERO_TIME {
      var x :| x in ids && rows[x].retentionUntil == Some(until);
      assert x in ids + {id};
    }
    assert id in ids + {id};
  }

  // ---- The listing and the single-chain read agree --------------------------------------------

  lemma ListedKeyIsUnique(s: State, caller: Caller, includeExpired: bool, x: Key, y: Key)
    requires Keyed(s.rows) && x in ListedKeys(s, caller, includeExpired) && y in ListedKeys(s, caller, includeExpired)
    requires x.id == y.id
    ensures x == y
  {}

  lemma ShownOnce(keys: set<Key>, shown: seq<Key>)
    requires shown == Descending(keys) && forall x, y | x in keys && y in keys && x.id == y.id :: x == y
    ensures forall i | 0 <= i < |shown| :: shown[i] in keys
    ensures forall i, j | 0 <= i < j < |shown| :: shown[i].id != shown[j].id
    ensures forall k | k in keys :: exists i | 0 <= i < |shown| :: shown[i] == k
  {
    DescendingIsSorted(keys);
    forall i | 0 <= i < |shown| ensures shown[i] in keys {
      assert shown[i] in Elements(shown);
    }
    forall i, j | 0 <= i < j < |shown| ensures shown[i].id != shown[j].id {
      assert Before(shown[j], shown[i]);
      BeforeIrreflexive(shown[i]);
    }
    forall k | k in keys ensures exists i | 0 <= i < |shown| :: shown[i] == k {
      assert k in Elements(shown);
    }
  }

  // The first page, whole: one row of a chain exactly when the chain has a key.
  lemma ShownRoots(chains: seq<Chain>, keys: set<Key>, root: Id)
    requires MapKeys(chains, ChainKey) == Descending(keys) && forall x, y | x in keys && y in keys && x.id == y.id :: x == y
    ensures forall i, j | 0 <= i < j < |chains| :: chains[i].chainRootId != chains[j].chainRootId
    ensures (exists i | 0 <= i < |chains| :: chains[i].chainRootId == root) <==> (exists k | k in keys :: k.id == root)
  {
    var shown := MapKeys(chains, ChainKey);
    ShownOnce(keys, shown);
    forall i | 0 <= i < |chains| ensures shown[i].id == chains[i].chainRootId && shown[i] in keys {}
    if k :| k in keys && k.id == root {
      var i :| 0 <= i < |shown| && shown[i] == k;
      assert chains[i].chainRootId == root;
    }
    if i :| 0 <= i < |chains| && chains[i].chainRootId == root {
      assert shown[i] in keys && shown[i].id == root;
    }
  }

  lemma ReadIsListed(s: State, caller: Caller, id: Id)
    requires Keyed(s.rows) && id in s.rows
    ensures var root := ChainRootId(s.rows[id]);
            && (GetChain(s, caller, id).Ok? <==> exists k | k in ListedKeys(s, caller, true) :: k.id == root)
            && (GetChain(s, caller, id).Ok? ==>
                  LiveRows(s.rows, root) != {} && ListedChain(s, root) == GetChain(s, caller, id).value.(innerFiles := []))
  {
    var root := ChainRootId(s.rows[id]);
    assert root in Roots(s.rows);
    if GetChain(s, caller, id).Ok? {
      assert root in ListedRoots(s, caller, true);
      assert Key(LiveHead(s.rows, root).updatedAt, root) in ListedKeys(s, caller, true);
    }
  }

  /** Said of what the two calls return. The first page of a listing that shows expired chains
      and is large enough has, for any id of a chain, one row of that chain if the single-chain
      read finds it and none if it does not; that row is what the read returns, up to the inner
      files. */
  lemma ListingAgreesWithGetChain(
      s: State, caller: Caller, id: Id, cursor: Cursor, cap: nat, chains: seq<Chain>, r: Result<Chain>)
    requires Keyed(s.rows) && id in s.rows && cursor.root == NO_ID && |ListedKeys(s, caller, true)| <= cap
    requires MapKeys(chains, ChainKey) == Take(Descending(LeftBy(ListedKeys(s, caller, true), cursor)), cap)
    requires forall c | c in chains :: LiveRows(s.rows, c.chainRootId) != {} && c == ListedChain(s, c.chainRootId)
    requires r == GetChain(s, caller, id)
    ensures var root := ChainRootId(s.rows[id]);
            && (forall i, j | 0 <= i < j < |chains| :: chains[i].chainRootId != chains[j].chainRootId)
            && (r.Ok? <==> exists i | 0 <= i < |chains| :: chains[i].chainRootId == root)
            && (forall i | 0 <= i < |chains| && chains[i].chainRootId == root :: r.Ok? && chains[i] == r.value.(innerFiles := []))
  {
    var root, keys := ChainRootId(s.rows[id]), ListedKeys(s, caller, true);
    assert LeftBy(keys, cursor) == keys;
    DescendingIsSorted(keys);
    forall x, y | x in keys && y in keys && x.id == y.id ensures x == y {
      ListedKeyIsUnique(s, caller, true, x, y);
    }
    ShownRoots(chains, keys, root);
    ReadIsListed(s, caller, id);
    forall i | 0 <= i < |chains| && chains[i].chainRootId == root ensures chains[i] == ListedChain(s, root) {
      assert chains[i] in chains;
    }
  }

  // ---- Reads cannot see other people's chains ---------------------------------------------------

  // The store without any row of a chain the caller holds no read entry on.
  function Visible(s: State, caller: Caller): State {
    s.(rows := map id | id in s.rows && Allows(s.acl, ChainRootId(s.rows[id]), caller, Read) :: s.rows[id])
  }

  // The caller may read this chain, but the row it is named after is in another one that the
  // caller may not.
  predicate RootUnseen(s: State, caller: Caller, root: Id) {
    root in s.rows && Allows(s.acl, root, caller, Read) && !Allows(s.acl, ChainRootId(s.rows[root]), caller, Read)
  }

  lemma RootedChainsHaveNoUnseenRoot(s: State, caller: Caller, root: Id)
    requires Keyed(s.rows) && RootedParents(s)
    ensures !RootUnseen(s, caller, root)
  {
    if root in s.rows && Allows(s.acl, root, caller, Read) {
      var g :| g in s.acl && HeldBy(g, root, caller) && Read in g.rights;
      assert g.chainRoot == root;
    }
  }

  lemma VisibleChain(s: State, caller: Caller, root: Id)
    requires Keyed(s.rows) && Allows(s.acl, root, caller, Read)
    ensures var v := Visible(s, caller).rows;
            && (root in v <==> root in s.rows && !RootUnseen(s, caller, root))
            && LiveRows(v, root) == LiveRows(s.rows, root)
            && (root != NO_ID ==>
                  && ContainersOf(v, root) == ContainersOf(s.rows, root)
                  && SignedPdfsOf(v, root) == SignedPdfsOf(s.rows, root) - (if RootUnseen(s, caller, root) then {root} else {}))
  {
    var v := Visible(s, caller).rows;
    forall id | id in s.rows && ChainRootId(s.rows[id]) == root ensures id in v && v[id] == s.rows[id] {}
    if root != NO_ID {
      forall id | id in s.rows && InChain(s.rows[id], root) && id != root ensures ChainRootId(s.rows[id]) == root {}
    }
  }

  lemma VisibleHead(s: State, caller: Caller, root: Id)
    requires Keyed(s.rows) && Allows(s.acl, root, caller, Read) && LiveRows(s.rows, root) != {}
    ensures LiveRows(Visible(s, caller).rows, root) != {}
    ensures LiveHead(Visible(s, caller).rows, root) == LiveHead(s.rows, root)
  {
    VisibleChain(s, caller, root);
    var v := Visible(s, caller).rows;
    HeadUnique(s.rows, LiveRows(s.rows, root), HeadOf(s.rows, LiveRows(s.rows, root)), HeadOf(v, LiveRows(v, root)));
  }

  lemma VisibleListing(s: State, caller: Caller, includeExpired: bool)
    requires Keyed(s.rows)
    ensures ReadableIds(Visible(s, caller), caller) == ReadableIds(s, caller)
    ensures ListedKeys(Visible(s, caller), caller, includeExpired) == ListedKeys(s, caller, includeExpired)
  {
    var v := Visible(s, caller);
    forall root | Allows(s.acl, root, caller, Read)
      ensures root in Roots(v.rows) <==> root in Roots(s.rows)
    {
      if root in Roots(s.rows) {
        var x :| x in s.rows && ChainRootId(s.rows[x]) == root;
        assert x in v.rows;
      }
    }
    forall root | Allows(s.acl, root, caller, Read)
      ensures LiveRows(v.rows, root) == LiveRows(s.rows, root)
      ensures LiveRows(s.rows, root) != {} ==> LiveHead(v.rows, root) == LiveHead(s.rows, root)
    {
      VisibleChain(s, caller, root);
      if LiveRows(s.rows, root) != {} {
        VisibleHead(s, caller, root);
      }
    }
    assert ListedRoots(v, caller, includeExpired) == ListedRoots(s, caller, includeExpired);
  }

  // What of an unseen root row each read would show: the freeze it puts on a row, its freeze and
  // date in the chain's projection, the row itself in a search.
  predicate ShowsInRow(s: State, caller: Caller, id: Id) {
    id in s.rows && MayRead(s, s.rows[id], caller) && RootUnseen(s, caller, ChainRootId(s.rows[id]))
    && s.rows[ChainRootId(s.rows[id])].resultFrozen != s.rows[id].resultFrozen
  }

  ghost predicate ShowsInChain(s: State, caller: Caller, root: Id)
    requires Keyed(s.rows)
  {
    RootUnseen(s, caller, root) && LiveRows(s.rows, root) != {}
    && (s.rows[root].resultFrozen || s.rows[root].createdAt != LiveHead(s.rows, root).createdAt)
  }

  predicate ShowsInSearch(s: State, caller: Caller, root: Id) {
    RootUnseen(s, caller, root) && root != NO_ID && s.rows[root].kind.Pdf? && !s.rows[root].status.Deleted?
  }

  lemma RowIgnoresInvisibleIff(s: State, caller: Caller, id: Id)
    requires Keyed(s.rows)
    ensures Get(Visible(s, caller), id, caller) == Get(s, id, caller) <==> !ShowsInRow(s, caller, id)
  {
    if id in s.rows && Allows(s.acl, ChainRootId(s.rows[id]), caller, Read) {
      VisibleChain(s, caller, ChainRootId(s.rows[id]));
    }
  }

  lemma ChainIgnoresInvisibleIff(s: State, caller: Caller, id: Id)
    requires Keyed(s.rows) && id in s.rows
    ensures GetChain(Visible(s, caller), caller, id) == GetChain(s, caller, id) <==>
            !ShowsInChain(s, caller, ChainRootId(s.rows[id]))
  {
    var root := ChainRootId(s.rows[id]);
    if Allows(s.acl, root, caller, Read) {
      VisibleChain(s, caller, root);
      if LiveRows(s.rows, root) != {} {
        VisibleHead(s, caller, root);
      }
    }
  }

  // The searches answer alike, whatever row they come upon first.
  ghost predicate SearchesAgree(s: State, v: State, caller: Caller, root: Id) {
    forall r ::
      && (Answers(v, root, caller, ContainersOf(v.rows, root), r) <==> Answers(s, root, caller, ContainersOf(s.rows, root), r))
      && (Answers(v, root, caller, SignedPdfsOf(v.rows, root), r) <==> Answers(s, root, caller, SignedPdfsOf(s.rows, root), r))
  }

  lemma SearchIgnoresInvisibleIff(s: State, caller: Caller, root: Id)
    requires Keyed(s.rows)
    ensures SearchesAgree(s, Visible(s, caller), caller, root) <==> !ShowsInSearch(s, caller, root)
  {
    var v := Visible(s, caller);
    if root != NO_ID && Allows(s.acl, root, caller, Read) {
      VisibleChain(s, caller, root);
      if ShowsInSearch(s, caller, root) {
        var r := Ok(s.rows[root]);
        assert root in SignedPdfsOf(s.rows, root) && root !in SignedPdfsOf(v.rows, root);
        assert Answers(s, root, caller, SignedPdfsOf(s.rows, root), r);
        assert !Answers(v, root, caller, SignedPdfsOf(v.rows, root), r);
      }
    }
  }

  // Every read gives this caller the same from both states.
  ghost predicate ReadsAgree(s: State, v: State, caller: Caller)
    requires Keyed(s.rows) && Keyed(v.rows)
  {
    && (forall id :: Get(v, id, caller) == Get(s, id, caller))
    && (forall id :: GetChain(v, caller, id) == GetChain(s, caller, id))
    && (forall root :: SearchesAgree(s, v, caller, root))
    && ReadableIds(v, caller) == ReadableIds(s, caller)
    && (forall includeExpired :: ListedKeys(v, caller, includeExpired) == ListedKeys(s, caller, includeExpired))
  }

  lemma ListedAsRead(s: State, caller: Caller, root: Id)
    requires Keyed(s.rows) && root in ListedRoots(s, caller, true) && !ShowsInChain(s, caller, root)
    ensures LiveRows(Visible(s, caller).rows, root) != {} && ListedChain(Visible(s, caller), root) == ListedChain(s, root)
  {
    VisibleChain(s, caller, root);
    VisibleHead(s, caller, root);
  }

  /** Reads do not depend on chains the caller cannot see: taking every row of every such chain
      away changes no answer of the row read, the listings, the chain read or either search. That
      is so exactly when no chain the caller reads is named after a row of an unseen chain that
      would show: by the freeze it puts on another row, by its freeze or date in the chain's
      projection, or as a signed PDF in the search. */
  lemma ReadsIgnoreInvisibleChainsIff(s: State, caller: Caller)
    requires Keyed(s.rows)
    ensures ReadsAgree(s, Visible(s, caller), caller) <==>
            && (forall id :: !ShowsInRow(s, caller, id))
            && (forall id | id in s.rows :: !ShowsInChain(s, caller, ChainRootId(s.rows[id])))
            && (forall root :: !ShowsInSearch(s, caller, root))
  {
    var v := Visible(s, caller);
    forall id ensures Get(v, id, caller) == Get(s, id, caller) <==> !ShowsInRow(s, caller, id) {
      RowIgnoresInvisibleIff(s, caller, id);
    }
    forall id | id in s.rows
      ensures GetChain(v, caller, id) == GetChain(s, caller, id) <==> !ShowsInChain(s, caller, ChainRootId(s.rows[id]))
    {
      ChainIgnoresInvisibleIff(s, caller, id);
    }
    forall root ensures SearchesAgree(s, v, caller, root) <==> !ShowsInSearch(s, caller, root) {
      SearchIgnoresInvisibleIff(s, caller, root);
    }
    forall includeExpired ensures ListedKeys(v, caller, includeExpired) == ListedKeys(s, caller, includeExpired) {
      VisibleListing(s, caller, includeExpired);
    }
    VisibleListing(s, caller, true);
  }

  /** Where chains are one level deep there is no such row, and listed chains agree in every field. */
  lemma ReadsIgnoreInvisibleChains(s: State, caller: Caller)
    requires Keyed(s.rows) && RootedParents(s)
    ensures ReadsAgree(s, Visible(s, caller), caller)
    ensures forall root | root in ListedRoots(s, caller, true) ::
              && LiveRows(Visible(s, caller).rows, root) != {}
              && ListedChain(Visible(s, caller), root) == ListedChain(s, root)
  {
    forall root ensures !RootUnseen(s, caller, root) {
      RootedChainsHaveNoUnseenRoot(s, caller, root);
    }
    ReadsIgnoreInvisibleChainsIff(s, caller);
    forall root | root in ListedRoots(s, caller, true)
      ensures LiveRows(Visible(s, caller).rows, root) != {} && ListedChain(Visible(s, caller), root) == ListedChain(s, root)
    {
      ListedAsRead(s, caller, root);
    }
  }

  // ---- Organisations ---------------------------------------------------------------------------

  // The row read and the row listing keep a product to the organisation it acts for.
  lemma RowReadsStayInTenant(s: State, caller: Caller, id: Id)
    requires caller.product != ""
    ensures Get(s, id, caller).Ok? ==> Get(s, id, caller).value.tenantId == caller.tenant
    ensures id in ReadableIds(s, caller) ==> s.rows[id].tenantId == caller.tenant
  {}

  /** The chain read and the chain listing do not ask for the organisation: the head they show is
      a row the row read gives the same caller exactly when it is of the caller's organisation. */
  lemma ChainReadShowsWhatGetRefuses(s: State, caller: Caller, root: Id)
    requires Keyed(s.rows) && root in ListedRoots(s, caller, true)
    ensures var head := LiveHead(s.rows, root);
            && (Get(s, head.id, caller).Ok? <==> TenantMatches(head, caller))
            && (forall id | id in s.rows && ChainRootId(s.rows[id]) == root ::
                  GetChain(s, caller, id).Ok? && GetChain(s, caller, id).value.id == head.id)
  {
    assert HeadOf(s.rows, LiveRows(s.rows, root)) in LiveRows(s.rows, root);
  }

  /** Nor do the searches; and the signed PDF a chain is named after may be of another chain. */
  lemma SearchShowsWhatGetRefuses(s: State, caller: Caller, root: Id, r: Result<Document>)
    requires Keyed(s.rows) && r.Ok?
    requires Answers(s, root, caller, ContainersOf(s.rows, root), r) || Answers(s, root, caller, SignedPdfsOf(s.rows, root), r)
    ensures Get(s, r.value.id, caller).Ok? <==>
            TenantMatches(s.rows[r.value.id], caller) && !(r.value.id == root && RootUnseen(s, caller, root))
  {}

  // ---- Reference-counted removal ---------------------------------------------------------------

  /** After a removal the caller holds nothing on the chain and every other entry is intact; bytes
      are released exactly when no entry on the chain is left, and then those of every row not
      deleted already that hangs below the root, and of the root row itself. These are the rows
      of the chain exactly when the root row, if it is still there, is its own chain's. */
  lemma RemovalIsCounted(s: State, docId: Id, caller: Caller, now: Time)
    requires Keyed(s.rows) && NO_ID !in s.rows && RemoveRefusal(s, docId, caller).None?
    ensures var a := RemoveAccess(docId, caller, now);
            var root := ChainRootId(s.rows[docId]);
            var chain := set id | id in s.rows && ChainRootId(s.rows[id]) == root && !s.rows[id].status.Deleted?;
            var s' := Apply(s, a);
            && (forall right :: !Allows(s'.acl, root, caller, right))
            && (forall g :: g in s'.acl <==> g in s.acl && !HeldBy(g, root, caller))
            && s'.rows.Keys == s.rows.Keys
            && (Shared(s'.acl, root) ==> Released(s, a) == {} && s'.rows == s.rows)
            && (!Shared(s'.acl, root) ==>
                  && Released(s, a) == chain + (if root in s.rows && !s.rows[root].status.Deleted? then {root} else {})
                  && (Released(s, a) == chain <==>
                        (root in s.rows && !s.rows[root].status.Deleted? ==> ChainRootId(s.rows[root]) == root))
                  && (forall id | id in s.rows ::
                        if id in Released(s, a) then s'.rows[id].status.Deleted? else s'.rows[id] == s.rows[id]))
  {
    var root := ChainRootId(s.rows[docId]);
    forall g ensures g in Kept(s.acl, NotHeldBy(root, caller)) <==> g in s.acl && !HeldBy(g, root, caller) {
      KeptIsFilter(s.acl, NotHeldBy(root, caller), g);
    }
    assert root != NO_ID;
    forall id | id in s.rows ensures InChain(s.rows[id], root) <==> ChainRootId(s.rows[id]) == root || id == root {}
  }
}
