/** Runs of the metadata store: what every accepted or refused call keeps, and what therefore
    holds after any number of them in any order. */
module StoreRuns {
  import opened Types
  import opened Metadata

  // The store together with every row id handed out so far: ids are never reused.
  datatype World = World(st: State, issued: set<Id>)

  // The bytes a write brings: the row it lands on and what that row will say about them.
  datatype Load = Load(target: Id, storageRef: Id, keyRef: string, hash: string, size: nat)

  function LoadOf(a: Action): Option<Load> {
    match a
    case Insert(i, id, _) => Some(Load(id, i.storageRef, i.encryptionKeyRef, i.contentHash, i.size))
    case Replace(i, _) => Some(Load(i.id, i.storageRef, i.encryptionKeyRef, i.contentHash, i.size))
    case Bundle(i, id, _) => Some(Load(id, i.storageRef, i.encryptionKeyRef, i.contentHash, i.size))
    case Rebundle(i, _) => Some(Load(i.id, i.storageRef, i.encryptionKeyRef, i.contentHash, i.size))
    case _ => None
  }

  function FreshIds(a: Action): set<Id> {
    match a
    case Insert(_, id, _) => {id}
    case Bundle(_, id, _) => {id}
    case _ => {}
  }

  // What the service's callers and its environment guarantee of a call: ids are new, a write
  // names an object no row refers to, a parent is a row's id, and a sweep takes rows its test
  // admits.
  ghost predicate Enabled(w: World, a: Action) {
    && (forall id | id in FreshIds(a) :: id != NO_ID && id !in w.issued)
    && (LoadOf(a).Some? ==>
          var l := LoadOf(a).value;
          l.storageRef != NO_ID && l.keyRef != "" && l.storageRef !in LiveRefs(w.st.rows))
    && match a
       case Insert(i, id, _) =>
         && !Terminal(StatusOf(i))
         && i.ownerKind != Some(Serial)
         && (i.parentId == NO_ID || i.parentId in w.issued)
       case SweepRetention(taken, cutoff, _) => taken <= Eligible(w.st.rows, cutoff)
       case SweepHistory(taken, before) => taken <= Erasable(w.st.rows, before)
       case _ => true
  }

  function Step(w: World, a: Action): World {
    World(Apply(w.st, a), w.issued + FreshIds(a))
  }

  const EMPTY: World := World(State(map[], []), {})

  ghost predicate IsRun(ws: seq<World>, actions: seq<Action>) {
    && |ws| == |actions| + 1
    && forall i | 0 <= i < |actions| :: Enabled(ws[i], actions[i]) && ws[i + 1] == Step(ws[i], actions[i])
  }

  lemma RunExtends(ws: seq<World>, actions: seq<Action>, a: Action)
    requires IsRun(ws, actions) && Enabled(ws[|actions|], a)
    ensures IsRun(ws + [Step(ws[|actions|], a)], actions + [a])
  {}

  // ---- The invariant ---------------------------------------------------------------------

  ghost predicate IdsIssued(w: World) {
    && (forall id | id in w.st.rows ::
          && id != NO_ID && id in w.issued && w.st.rows[id].id == id
          && (w.st.rows[id].parentId == NO_ID || w.st.rows[id].parentId in w.issued))
    && (forall g | g in w.st.acl :: g.chainRoot in w.issued)
    && NO_ID !in w.issued
  }

  // A row has no bytes exactly when it is expired or deleted.
  ghost predicate StorageMatchesStatus(rows: map<Id, Document>) {
    forall id | id in rows ::
      && (rows[id].storageRef == NO_ID <==> Terminal(rows[id].status))
      && (rows[id].encryptionKeyRef == "" <==> Terminal(rows[id].status))
  }

  ghost predicate RefsDistinct(rows: map<Id, Document>) {
    forall a, b | a in rows && b in rows && a != b && rows[a].storageRef != NO_ID ::
      rows[a].storageRef != rows[b].storageRef
  }

  // Two live signed artifacts of one form in one chain.
  predicate Rivals(d: Document, e: Document) {
    && d.kind == e.kind && !d.kind.Source?
    && !d.status.Deleted? && !e.status.Deleted?
    && d.parentId != NO_ID
    && (e.parentId == d.parentId || (d.kind.Pdf? && e.id == d.parentId))
  }

  ghost predicate OneArtifact(rows: map<Id, Document>) {
    forall a, b | a in rows && b in rows && a != b :: !Rivals(rows[a], rows[b])
  }

  ghost predicate EntriesCanonical(acl: seq<Grant>) {
    && (forall i, j | 0 <= i < j < |acl| :: !SameEntry(acl[i], acl[j]))
    && (forall g | g in acl :: g.kind.Serial? ==> NormalizeSerial(g.principal) == g.principal)
  }

  ghost predicate Inv(w: World) {
    && IdsIssued(w)
    && StorageMatchesStatus(w.st.rows)
    && RefsDistinct(w.st.rows)
    && OneArtifact(w.st.rows)
    && EntriesCanonical(w.st.acl)
  }

  // ---- How one row changes over a step ------------------------------------------------------

  // Retention only moves forward; a missing date is further out than any.
  predicate NotSooner(old_: Option<Time>, new_: Option<Time>) {
    match old_
    case None => new_.None?
    case Some(t) => new_.Some? && t <= new_.value
  }

  // What stays true of a row for as long as it exists.
  predicate Continues(d: Document, e: Document) {
    && e.id == d.id && e.kind == d.kind && e.parentId == d.parentId && e.owner == d.owner
    && e.tenantId == d.tenantId && e.createdAt == d.createdAt
    && (d.status.Deleted? ==> e.status.Deleted?)
    && NotSooner(d.retentionUntil, e.retentionUntil)
    && (d.kind.Source? ==> e.contentHash == d.contentHash)
    && (d.retentionUntil.None? && !d.status.Expired? ==> !e.status.Expired?)
    && (e.status.Received? ==> d.status.Received?)
  }

  // The row an accepted write creates.
  function Created(a: Action, id: Id): Option<Document> {
    match a
    case Insert(i, newId, now) => if id == newId then Some(NewRow(i, id, now)) else None
    case Bundle(i, newId, now) => if id == newId then Some(BundleRow(i, id, now)) else None
    case _ => None
  }

  lemma RowsContinue(w: World, a: Action, id: Id)
    requires Enabled(w, a) && IdsIssued(w)
    requires id in Apply(w.st, a).rows
    ensures if id in w.st.rows then Continues(w.st.rows[id], Apply(w.st, a).rows[id])
            else Refusal(w.st, a).None? && Created(a, id) == Some(Apply(w.st, a).rows[id])
  {
    if Absorbs(a) {
      AbsorbedRowsContinue(w, a, id);
    } else if Purges(a) {
      PurgedRowsContinue(w, a, id);
    }
  }

  // The calls that drop loose sources, and those that expire, purge or erase.
  predicate Absorbs(a: Action) { a.Bundle? || a.Rebundle? }
  predicate Purges(a: Action) { a.RemoveAccess? || a.SweepRetention? || a.SweepHistory? || a.DeleteHistoryChain? }

  lemma AbsorbedRowsContinue(w: World, a: Action, id: Id)
    requires Enabled(w, a) && IdsIssued(w) && Absorbs(a)
    requires id in Apply(w.st, a).rows
    ensures if id in w.st.rows then Continues(w.st.rows[id], Apply(w.st, a).rows[id])
            else Refusal(w.st, a).None? && Created(a, id) == Some(Apply(w.st, a).rows[id])
  {}

  lemma PurgedRowsContinue(w: World, a: Action, id: Id)
    requires Enabled(w, a) && Purges(a)
    requires id in Apply(w.st, a).rows
    ensures id in w.st.rows && Continues(w.st.rows[id], Apply(w.st, a).rows[id])
  {}

  ghost predicate Distinct(acl: seq<Grant>) {
    forall i, j | 0 <= i < j < |acl| :: !SameEntry(acl[i], acl[j])
  }

  lemma {:induction false} KeptDistinct(acl: seq<Grant>, c: Criterion)
    requires Distinct(acl)
    ensures Distinct(Kept(acl, c))
  {
    if acl != [] {
      var init, last := acl[..|acl| - 1], acl[|acl| - 1];
      KeptDistinct(init, c);
      forall i | 0 <= i < |Kept(init, c)| ensures !SameEntry(Kept(init, c)[i], last) {
        KeptIsFilter(init, c, Kept(init, c)[i]);
      }
    }
  }

  lemma {:induction false} UpsertMembers(acl: seq<Grant>, g: Grant, h: Grant)
    requires h in Upsert(acl, g)
    ensures h in acl || SameEntry(h, g)
  {
    if acl != [] && !SameEntry(acl[0], g) && h != acl[0] {
      UpsertMembers(acl[1..], g, h);
    }
  }

  lemma {:induction false} UpsertDistinct(acl: seq<Grant>, g: Grant)
    requires Distinct(acl)
    ensures Distinct(Upsert(acl, g))
  {
    if acl != [] && !SameEntry(acl[0], g) {
      UpsertDistinct(acl[1..], g);
      var rest := Upsert(acl[1..], g);
      forall i | 0 <= i < |rest| ensures !SameEntry(acl[0], rest[i]) {
        UpsertMembers(acl[1..], g, rest[i]);
      }
    }
  }

  // Where an entry of the new list comes from: it was there, or the call wrote it.
  lemma EntriesContinue(w: World, a: Action, g: Grant)
    requires g in Apply(w.st, a).acl
    ensures || g in w.st.acl
            || (a.Insert? && a.insert.parentId == NO_ID && g == OwnerGrant(a.insert, a.id))
            || (a.Bundle? && g == Grant(a.id, Sub, a.bundle.owner, [Read, CoSign]))
            || (a.GrantAccess? && a.grant.docId in w.st.rows && g.chainRoot == ChainRootId(w.st.rows[a.grant.docId])
                && (g.kind.Serial? ==> g.principal == NormalizeSerial(a.grant.principal)))
  {
    if Refusal(w.st, a).None? {
      match a
      case Bundle(i, id, _) =>
        KeptIsFilter(w.st.acl + [Grant(id, Sub, i.owner, [Read, CoSign])], ChainNotIn(Elements(i.sourceIds)), g);
      case Rebundle(i, _) => KeptIsFilter(w.st.acl, ChainNotIn(Elements(i.absorbSourceIds)), g);
      case GrantAccess(i) =>
        var principal := if i.kind.Serial? then NormalizeSerial(i.principal) else i.principal;
        var rights := if i.rights == [] then [Read, CoSign] else i.rights;
        UpsertMembers(w.st.acl, Grant(ChainRootId(w.st.rows[i.docId]), i.kind, principal, rights), g);
      case RemoveAccess(docId, caller, _) =>
        KeptIsFilter(w.st.acl, NotHeldBy(ChainRootId(w.st.rows[docId]), caller), g);
      case SweepHistory(taken, _) => KeptIsFilter(w.st.acl, ChainIn(Roots(w.st.rows - taken)), g);
      case DeleteHistoryChain(_, root) => KeptIsFilter(w.st.acl, ChainNotIn({root}), g);
      case _ =>
    }
  }

  // ---- Every step keeps the invariant ---------------------------------------------------------

  lemma IdsStayIssued(w: World, a: Action)
    requires Enabled(w, a) && IdsIssued(w)
    ensures IdsIssued(Step(w, a))
  {
    forall id | id in Apply(w.st, a).rows
      ensures var d := Apply(w.st, a).rows[id];
              && id != NO_ID && id in Step(w, a).issued && d.id == id
              && (d.parentId == NO_ID || d.parentId in Step(w, a).issued)
    {
      RowsContinue(w, a, id);
    }
    forall g | g in Apply(w.st, a).acl ensures g.chainRoot in Step(w, a).issued {
      EntriesContinue(w, a, g);
    }
  }

  lemma StorageStaysMatched(w: World, a: Action)
    requires Enabled(w, a) && IdsIssued(w) && StorageMatchesStatus(w.st.rows)
    ensures StorageMatchesStatus(Apply(w.st, a).rows)
  {
    if Absorbs(a) {
      AbsorbingKeepsStorage(w, a);
    } else if Purges(a) {
      PurgingKeepsStorage(w, a);
    }
  }

  lemma AbsorbingKeepsStorage(w: World, a: Action)
    requires Enabled(w, a) && StorageMatchesStatus(w.st.rows) && Absorbs(a)
    ensures StorageMatchesStatus(Apply(w.st, a).rows)
  {}

  lemma PurgingKeepsStorage(w: World, a: Action)
    requires StorageMatchesStatus(w.st.rows) && Purges(a)
    ensures StorageMatchesStatus(Apply(w.st, a).rows)
  {}

  /** At most one live container per parent, and one live signed PDF per chain tree: the check
      on insert is enough, because no other call makes a row live again or moves its parent. */
  lemma OneArtifactKept(w: World, a: Action)
    requires Enabled(w, a) && IdsIssued(w) && OneArtifact(w.st.rows)
    ensures OneArtifact(Apply(w.st, a).rows)
  {
    var rows, rows' := w.st.rows, Apply(w.st, a).rows;
    forall x, y | x in rows' && y in rows' && x != y ensures !Rivals(rows'[x], rows'[y]) {
      RowsContinue(w, a, x);
      RowsContinue(w, a, y);
      if x in rows && y in rows {
        assert !Rivals(rows[x], rows[y]);
      }
    }
  }

  lemma EntriesStayCanonical(w: World, a: Action)
    requires Enabled(w, a) && IdsIssued(w) && EntriesCanonical(w.st.acl)
    ensures EntriesCanonical(Apply(w.st, a).acl)
  {
    var acl := w.st.acl;
    forall g | g in Apply(w.st, a).acl && g.kind.Serial? ensures NormalizeSerial(g.principal) == g.principal {
      EntriesContinue(w, a, g);
      if a.GrantAccess? {
        NormalizeIdempotent(a.grant.principal);
      }
    }
    assert Distinct(acl);
    if Refusal(w.st, a).None? {
      match a
      case Bundle(i, id, _) =>
        KeptDistinct(acl + [Grant(id, Sub, i.owner, [Read, CoSign])], ChainNotIn(Elements(i.sourceIds)));
      case Rebundle(i, _) => KeptDistinct(acl, ChainNotIn(Elements(i.absorbSourceIds)));
      case GrantAccess(i) =>
        var principal := if i.kind.Serial? then NormalizeSerial(i.principal) else i.principal;
        var rights := if i.rights == [] then [Read, CoSign] else i.rights;
        UpsertDistinct(acl, Grant(ChainRootId(w.st.rows[i.docId]), i.kind, principal, rights));
      case RemoveAccess(docId, caller, _) => KeptDistinct(acl, NotHeldBy(ChainRootId(w.st.rows[docId]), caller));
      case SweepHistory(taken, _) => KeptDistinct(acl, ChainIn(Roots(w.st.rows - taken)));
      case DeleteHistoryChain(_, root) => KeptDistinct(acl, ChainNotIn({root}));
      case _ =>
    }
    assert Distinct(Apply(w.st, a).acl);
  }

  // ---- How bytes move over a step ---------------------------------------------------------------

  predicate Carries(d: Document, l: Load) {
    && d.storageRef == l.storageRef && d.encryptionKeyRef == l.keyRef
    && d.contentHash == l.hash && d.size == l.size
  }

  predicate SameDigest(d: Document, e: Document) { e.contentHash == d.contentHash && e.size == d.size }

  // The bytes an accepted write brings; none when it is refused or brings none.
  function Landing(s: State, a: Action): Option<Load> {
    if Refusal(s, a).Some? then None else LoadOf(a)
  }

  // Every row's bytes arrive with the call, are handed back, or stay as they were.
  ghost predicate BytesStep(rows: map<Id, Document>, rows': map<Id, Document>, released: set<Id>, load: Option<Load>) {
    && released <= rows.Keys
    && (load.Some? ==> load.value.target in rows')
    && (forall id | id in rows' ::
          if load.Some? && load.value.target == id then Carries(rows'[id], load.value)
          else
            && id in rows && SameDigest(rows[id], rows'[id])
            && if id in released then rows'[id].storageRef == NO_ID && rows'[id].encryptionKeyRef == ""
               else rows'[id].storageRef == rows[id].storageRef && rows'[id].encryptionKeyRef == rows[id].encryptionKeyRef)
    && (forall id | id in rows && id !in rows' :: id in released || rows[id].storageRef == NO_ID)
    && (load.Some? && load.value.target in rows ==> load.value.target in released)
  }

  lemma BytesMove(w: World, a: Action)
    requires Enabled(w, a) && IdsIssued(w) && StorageMatchesStatus(w.st.rows)
    ensures BytesStep(w.st.rows, Apply(w.st, a).rows, Released(w.st, a), Landing(w.st, a))
  {
    if Absorbs(a) {
      AbsorbingMovesBytes(w, a);
    } else if Purges(a) {
      PurgingMovesBytes(w, a);
    }
  }

  lemma AbsorbingMovesBytes(w: World, a: Action)
    requires Enabled(w, a) && IdsIssued(w) && Absorbs(a)
    ensures BytesStep(w.st.rows, Apply(w.st, a).rows, Released(w.st, a), Landing(w.st, a))
  {
    if Refusal(w.st, a).None? {
      match a
      case Bundle(i, newId, _) => NoFault(w.st.rows, i.sourceIds, 0, i.owner, true);
      case Rebundle(i, _) => NoFault(w.st.rows, i.absorbSourceIds, 0, i.owner, false);
    }
  }

  lemma PurgingMovesBytes(w: World, a: Action)
    requires Enabled(w, a) && StorageMatchesStatus(w.st.rows) && Purges(a)
    ensures BytesStep(w.st.rows, Apply(w.st, a).rows, Released(w.st, a), Landing(w.st, a))
  {}

  lemma StepConservesRefs(rows: map<Id, Document>, rows': map<Id, Document>, released: set<Id>, load: Option<Load>)
    requires BytesStep(rows, rows', released, load) && RefsDistinct(rows)
    requires load.Some? ==> load.value.storageRef != NO_ID && load.value.storageRef !in LiveRefs(rows)
    ensures RefsDistinct(rows')
    ensures RefsAmong(rows, released) <= LiveRefs(rows)
    ensures LiveRefs(rows') ==
              LiveRefs(rows) - RefsAmong(rows, released) + (if load.Some? then {load.value.storageRef} else {})
  {
    var gained := if load.Some? then {load.value.storageRef} else {};
    forall k | k in LiveRefs(rows') ensures k in LiveRefs(rows) - RefsAmong(rows, released) + gained {
      var id :| id in rows' && rows'[id].storageRef == k;
    }
    forall k | k in LiveRefs(rows) - RefsAmong(rows, released) + gained ensures k in LiveRefs(rows') {
      if k in gained {
        assert rows'[load.value.target].storageRef == k;
      } else {
        var id :| id in rows && rows[id].storageRef == k;
        assert id in rows' && rows'[id].storageRef == k;
      }
    }
    forall x, y | x in rows' && y in rows' && x != y && rows'[x].storageRef != NO_ID
      ensures rows'[x].storageRef != rows'[y].storageRef
    {
      if load.Some? && load.value.target == x && rows'[y].storageRef != NO_ID {
        assert rows[y].storageRef in LiveRefs(rows);
      }
      if load.Some? && load.value.target == y {
        assert rows[x].storageRef in LiveRefs(rows);
      }
    }
  }

  /** No call loses track of an object: the keys rows refer to afterwards are those before,
      less the ones handed back for destruction, plus the one the write brought. */
  lemma RefsConserved(w: World, a: Action)
    requires Enabled(w, a) && Inv(w)
    ensures RefsDistinct(Apply(w.st, a).rows)
    ensures Freed(w.st, a) <= LiveRefs(w.st.rows)
    ensures LiveRefs(Apply(w.st, a).rows) ==
              LiveRefs(w.st.rows) - Freed(w.st, a)
              + (if Landing(w.st, a).Some? then {Landing(w.st, a).value.storageRef} else {})
  {
    BytesMove(w, a);
    StepConservesRefs(w.st.rows, Apply(w.st, a).rows, Released(w.st, a), Landing(w.st, a));
  }

  lemma InvKept(w: World, a: Action)
    requires Enabled(w, a) && Inv(w)
    ensures Inv(Step(w, a))
  {
    IdsStayIssued(w, a);
    StorageStaysMatched(w, a);
    RefsConserved(w, a);
    OneArtifactKept(w, a);
    EntriesStayCanonical(w, a);
  }

  /** Every reachable store is consistent. */
  lemma {:induction false} ReachableInv(ws: seq<World>, actions: seq<Action>)
    requires IsRun(ws, actions) && Inv(ws[0])
    ensures forall i | 0 <= i < |ws| :: Inv(ws[i])
  {
    for n := 0 to |actions|
      invariant forall i | 0 <= i <= n :: Inv(ws[i])
    {
      InvKept(ws[n], actions[n]);
    }
  }

  // ---- Rows over whole runs -------------------------------------------------------------------

  /** Over any run a row that is still there at the end is the same row: its date never came
      sooner, an undated one was never swept, and a source still has the digest it came with.
      A row that went never came back under its id. */
  lemma {:induction false} RowsContinueOverRuns(ws: seq<World>, actions: seq<Action>, id: Id)
    requires IsRun(ws, actions) && Inv(ws[0]) && id in ws[0].issued
    ensures id in ws[|actions|].issued
    ensures id in ws[|actions|].st.rows ==>
              id in ws[0].st.rows && Continues(ws[0].st.rows[id], ws[|actions|].st.rows[id])
  {
    ReachableInv(ws, actions);
    for n := 0 to |actions|
      invariant id in ws[n].issued
      invariant id in ws[n].st.rows ==> id in ws[0].st.rows && Continues(ws[0].st.rows[id], ws[n].st.rows[id])
    {
      if id in ws[n + 1].st.rows {
        RowsContinue(ws[n], actions[n], id);
      }
    }
  }

  // A new row is hung below a chain root, or below nothing still there.
  ghost predicate HangsBelowRoot(w: World, a: Action) {
    a.Insert? && a.insert.parentId in w.st.rows ==> w.st.rows[a.insert.parentId].parentId == NO_ID
  }

  lemma ParentsStayRooted(w: World, a: Action)
    requires Enabled(w, a) && IdsIssued(w) && RootedParents(w.st) && HangsBelowRoot(w, a)
    ensures RootedParents(Apply(w.st, a))
  {
    var rows, rows' := w.st.rows, Apply(w.st, a).rows;
    forall x | x in rows' && rows'[x].parentId in rows' ensures rows'[rows'[x].parentId].parentId == NO_ID {
      RowsContinue(w, a, x);
      RowsContinue(w, a, rows'[x].parentId);
    }
    forall g | g in Apply(w.st, a).acl && g.chainRoot in rows' ensures rows'[g.chainRoot].parentId == NO_ID {
      EntriesContinue(w, a, g);
      RowsContinue(w, a, g.chainRoot);
    }
  }

  /** Chains stay one level deep over any run that hangs new rows below roots only; the store
      itself does not insist on it. */
  lemma {:induction false} RunsBelowRootsStayRooted(ws: seq<World>, actions: seq<Action>)
    requires IsRun(ws, actions) && Inv(ws[0]) && RootedParents(ws[0].st)
    requires forall i | 0 <= i < |actions| :: HangsBelowRoot(ws[i], actions[i])
    ensures forall i | 0 <= i < |ws| :: RootedParents(ws[i].st)
  {
    ReachableInv(ws, actions);
    for n := 0 to |actions|
      invariant forall i | 0 <= i <= n :: RootedParents(ws[i].st)
    {
      ParentsStayRooted(ws[n], actions[n]);
    }
  }

  predicate HeldLive(rows: map<Id, Document>, id: Id) {
    id in rows && rows[id].legalHold && !Terminal(rows[id].status)
  }

  lemma HoldKept(w: World, a: Action, id: Id)
    requires Enabled(w, a) && Inv(w) && HeldLive(w.st.rows, id)
    requires a != SetLegalHold(id, false)
    ensures HeldLive(Apply(w.st, a).rows, id)
  {
    if Absorbs(a) {
      HoldKeptByAbsorbing(w, a, id);
    } else if Purges(a) {
      HoldKeptByPurging(w, a, id);
    }
  }

  lemma HoldKeptByAbsorbing(w: World, a: Action, id: Id)
    requires Enabled(w, a) && IdsIssued(w) && HeldLive(w.st.rows, id) && Absorbs(a)
    ensures HeldLive(Apply(w.st, a).rows, id)
  {
    if Refusal(w.st, a).None? {
      match a
      case Bundle(i, newId, _) => NoFault(w.st.rows, i.sourceIds, 0, i.owner, true);
      case Rebundle(i, _) => NoFault(w.st.rows, i.absorbSourceIds, 0, i.owner, false);
    }
  }

  lemma HoldKeptByPurging(w: World, a: Action, id: Id)
    requires Enabled(w, a) && HeldLive(w.st.rows, id) && Purges(a)
    ensures HeldLive(Apply(w.st, a).rows, id)
  {}

  /** Legal hold survives every run: until it is lifted, no sequence of sweeps, removals,
      bundles, rebundles, replacements or erasures takes a live held row or its storage. */
  lemma {:induction false} HoldSurvives(ws: seq<World>, actions: seq<Action>, id: Id)
    requires IsRun(ws, actions) && Inv(ws[0]) && HeldLive(ws[0].st.rows, id)
    requires forall a | a in actions :: a != SetLegalHold(id, false)
    ensures HeldLive(ws[|actions|].st.rows, id)
    ensures ws[|actions|].st.rows[id].storageRef != NO_ID
  {
    ReachableInv(ws, actions);
    for n := 0 to |actions|
      invariant HeldLive(ws[n].st.rows, id)
    {
      assert actions[n] in actions;
      HoldKept(ws[n], actions[n], id);
    }
  }
}
