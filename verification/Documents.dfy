/** The byte owner: every write puts a fresh sealed object, commits the row, then deletes what
    was superseded, or the new object again when the row was refused. */
module Documents {
  import opened Types
  import opened Metadata
  import Reads
  import opened StoreRuns
  import opened ByteModel
  import opened Naming

  // ---- What bytes a state holds --------------------------------------------------------

  // Every reference leads to an object that opens to the bytes the row describes.
  ghost predicate Faithful(c: Crypto, rows: map<Id, Document>, objs: map<Id, Bytes>) {
    forall id | id in rows && rows[id].storageRef != NO_ID ::
      && rows[id].storageRef in objs
      && Opens(c, objs[rows[id].storageRef], rows[id].encryptionKeyRef, rows[id].contentHash, rows[id].size)
  }

  // With nothing in flight the objects are exactly those rows refer to.
  ghost predicate Settled(c: Crypto, w: World, objs: map<Id, Bytes>) {
    Inv(w) && Faithful(c, w.st.rows, objs) && objs.Keys == LiveRefs(w.st.rows)
  }

  // The objects after the three phases: the new one in, those handed back out.
  ghost predicate ThreePhases(c: Crypto, released: set<Id>, load: Option<Load>, objs: map<Id, Bytes>, objs': map<Id, Bytes>) {
    match load
    case None => objs' == objs - released
    case Some(l) =>
      && l.storageRef !in objs && l.storageRef in objs'
      && Opens(c, objs'[l.storageRef], l.keyRef, l.hash, l.size)
      && objs' == (objs - released)[l.storageRef := objs'[l.storageRef]]
  }

  lemma AfterThreePhases(
      c: Crypto, rows: map<Id, Document>, rows': map<Id, Document>, released: set<Id>, load: Option<Load>,
      objs: map<Id, Bytes>, objs': map<Id, Bytes>)
    requires BytesStep(rows, rows', released, load) && RefsDistinct(rows)
    requires Faithful(c, rows, objs) && objs.Keys == LiveRefs(rows)
    requires ThreePhases(c, RefsAmong(rows, released), load, objs, objs')
    requires load.Some? ==> load.value.storageRef != NO_ID
    ensures Faithful(c, rows', objs') && objs'.Keys == LiveRefs(rows')
  {
    StepConservesRefs(rows, rows', released, load);
    forall id | id in rows' && rows'[id].storageRef != NO_ID
      ensures rows'[id].storageRef in objs'
      ensures Opens(c, objs'[rows'[id].storageRef], rows'[id].encryptionKeyRef, rows'[id].contentHash, rows'[id].size)
    {
      if load.None? || load.value.target != id {
        assert rows[id].storageRef == rows'[id].storageRef && id !in released;
        assert rows[id].storageRef !in RefsAmong(rows, released);
      }
    }
  }

  /** Putting the new object, committing and deleting what the commit handed back leaves rows,
      digests and objects in agreement. */
  lemma WriteSettles(c: Crypto, w: World, a: Action, objs: map<Id, Bytes>, objs': map<Id, Bytes>)
    requires Settled(c, w, objs) && Enabled(w, a)
    requires ThreePhases(c, Freed(w.st, a), Landing(w.st, a), objs, objs')
    ensures Settled(c, Step(w, a), objs')
  {
    InvKept(w, a);
    BytesMove(w, a);
    AfterThreePhases(c, w.st.rows, Apply(w.st, a).rows, Released(w.st, a), Landing(w.st, a), objs, objs');
  }

  // ---- What one write asks of the store ----------------------------------------------------

  datatype IngestInput = IngestInput(
    owner: string,
    serial: string,
    tenantId: string,
    kind: Option<Kind>,
    parentId: Id,
    filename: string,
    mime: string,
    preservationClass: string,
    status: Option<Status>,
    ownerKind: Option<PrincipalKind>,
    retentionClass: Option<RetentionClass>,
    retentionUntil: Option<Time>,
    data: Bytes)

  // The service dates the default class; under the durable class the date is the owner's.
  function RetentionFor(input: IngestInput, ttl: int, now: Time): Option<Time> {
    if input.retentionClass == Some(Durable) then input.retentionUntil else Some(now + ttl)
  }

  // A container uploaded without a kind is recorded as a signed container.
  function IngestAction(c: Crypto, p: Packaging, ttl: int, input: IngestInput, draw: Draw, id: Id, now: Time): Action {
    var found := p.inspect(input.data);
    var kind := if found.Some? && input.kind.None? then Some(Container) else input.kind;
    var status := if found.Some? && input.kind.None? && input.status.None? then Some(Signed) else input.status;
    Insert(
      InsertInput(
        input.owner, input.tenantId, kind, input.parentId, input.filename, draw.objKey, c.hash(input.data),
        if input.mime == "" then "application/octet-stream" else input.mime, |input.data|, status,
        KeyRef(c, draw), input.preservationClass, input.ownerKind, input.retentionClass,
        RetentionFor(input, ttl, now), if found.Some? then found.value else []),
      id, now)
  }

  function IngestCaller(input: IngestInput): Caller {
    if input.ownerKind == Some(Product) then Caller("", "", input.owner, input.tenantId)
    else Caller(input.owner, input.serial, "", "")
  }

  function ReplaceAction(c: Crypto, id: Id, expected: string, data: Bytes, class_: string, draw: Draw, now: Time): Action {
    Replace(ReplaceInput(id, expected, draw.objKey, c.hash(data), |data|, KeyRef(c, draw), class_), now)
  }

  function Manifest(p: Packaging, container: Bytes): seq<ManifestFile> {
    if p.inspect(container).Some? then p.inspect(container).value else []
  }

  const CONTAINER_MIME: string := "application/vnd.etsi.asic-e+zip"

  function BundleAction(
      c: Crypto, p: Packaging, ttl: int, owner: string, tenantId: string, ids: seq<Id>, filename: string,
      bundle: Bytes, draw: Draw, id: Id, now: Time): Action
  {
    Action.Bundle(
      BundleInput(
        owner, tenantId, ids, filename, draw.objKey, c.hash(bundle), CONTAINER_MIME, |bundle|, KeyRef(c, draw),
        "", now + ttl, Manifest(p, bundle)),
      id, now)
  }

  function RebundleAction(
      c: Crypto, p: Packaging, owner: string, id: Id, expected: string, bundle: Bytes, absorb: seq<Id>,
      draw: Draw, now: Time): Action
  {
    Action.Rebundle(
      RebundleInput(
        owner, id, expected, draw.objKey, c.hash(bundle), |bundle|, KeyRef(c, draw), Manifest(p, bundle), absorb),
      now)
  }

  // ---- Reading bytes ------------------------------------------------------------------------

  function ContentOf(c: Crypto, st: State, objs: map<Id, Bytes>, id: Id, caller: Caller): Result<(Document, Bytes)> {
    match Reads.Get(st, id, caller)
    case Err(e) => Err(e)
    case Ok(doc) =>
      if doc.storageRef == NO_ID || doc.encryptionKeyRef == "" then Err(Gone)
      else if doc.storageRef !in objs then Err(Gone)
      else
        match c.Plain(objs[doc.storageRef], doc.encryptionKeyRef)
        case None => Err(Unreadable)
        case Some(data) => Ok((doc, data))
  }

  /** Whoever may read a stored row reads the bytes its digest and size describe; whoever may
      not, or comes after the purge, gets no bytes. */
  lemma ContentMatchesRow(c: Crypto, w: World, objs: map<Id, Bytes>, id: Id, caller: Caller)
    requires Settled(c, w, objs)
    ensures var r := ContentOf(c, w.st, objs, id, caller);
            && (r.Ok? <==> id in w.st.rows && MayRead(w.st, w.st.rows[id], caller) && !Terminal(w.st.rows[id].status))
            && (r.Ok? ==>
                  && r.value.0.id == id
                  && c.hash(r.value.1) == w.st.rows[id].contentHash == r.value.0.contentHash
                  && |r.value.1| == w.st.rows[id].size)
  {}

  // ---- Rebundle entries -----------------------------------------------------------------------

  // One member of a rebundled set: a file already inside (name) or a source to absorb (sourceId).
  datatype BundleEntry = BundleEntry(name: string, sourceId: Id)

  // The last file of that name inside the container.
  function Inside(existing: seq<File>, name: string): Option<Bytes> {
    if existing == [] then None
    else if existing[|existing| - 1].name == name then Some(existing[|existing| - 1].data)
    else Inside(existing[..|existing| - 1], name)
  }

  // The name and bytes of a loose source to absorb.
  function SourceFile(c: Crypto, st: State, objs: map<Id, Bytes>, owner: string, id: Id): Result<File> {
    match ContentOf(c, st, objs, id, Caller(owner, "", "", ""))
    case Err(x) => Err(x)
    case Ok((doc, data)) =>
      if doc.owner != owner || !Bundleable(doc.kind, doc.status) then Err(NotBundleable)
      else Ok(File(doc.filename, data))
  }

  // The sources in order, the first fault standing for all.
  function SourceFiles(c: Crypto, st: State, objs: map<Id, Bytes>, owner: string, ids: seq<Id>): Result<seq<File>> {
    if ids == [] then Ok([])
    else
      match SourceFiles(c, st, objs, owner, ids[..|ids| - 1])
      case Err(x) => Err(x)
      case Ok(files) =>
        match SourceFile(c, st, objs, owner, ids[|ids| - 1])
        case Err(x) => Err(x)
        case Ok(f) => Ok(files + [f])
  }

  // The wanted name and bytes of one entry.
  function EntryFile(
      c: Crypto, st: State, objs: map<Id, Bytes>, owner: string, existing: seq<File>, e: BundleEntry): Result<File>
  {
    if e.name != "" && e.sourceId == NO_ID then
      match Inside(existing, e.name)
      case None => Err(NotFound)
      case Some(data) => Ok(File(e.name, data))
    else if e.sourceId != NO_ID && e.name == "" then SourceFile(c, st, objs, owner, e.sourceId)
    else Err(NotBundleable)
  }

  // The entries in order, the first fault standing for all.
  function EntryFiles(
      c: Crypto, st: State, objs: map<Id, Bytes>, owner: string, existing: seq<File>, entries: seq<BundleEntry>): Result<seq<File>>
  {
    if entries == [] then Ok([])
    else
      match EntryFiles(c, st, objs, owner, existing, entries[..|entries| - 1])
      case Err(x) => Err(x)
      case Ok(files) =>
        match EntryFile(c, st, objs, owner, existing, entries[|entries| - 1])
        case Err(x) => Err(x)
        case Ok(f) => Ok(files + [f])
  }

  function FileNames(files: seq<File>): (r: seq<string>)
    ensures |r| == |files| && forall i | 0 <= i < |files| :: r[i] == files[i].name
  {
    seq(|files|, i requires 0 <= i < |files| => files[i].name)
  }

  // The same bytes in the same order, under names made unique.
  function Renamed(files: seq<File>): (r: seq<File>)
    ensures |r| == |files|
    ensures forall i | 0 <= i < |files| :: r[i].data == files[i].data && r[i].name == NamesOf(FileNames(files))[i]
  {
    var names := NamesOf(FileNames(files));
    seq(|files|, i requires 0 <= i < |files| => File(names[i], files[i].data))
  }

  function Absorbed(entries: seq<BundleEntry>): seq<Id> {
    if entries == [] then []
    else
      var last := entries[|entries| - 1];
      Absorbed(entries[..|entries| - 1]) + (if last.sourceId != NO_ID && last.name == "" then [last.sourceId] else [])
  }

  ghost predicate ProperNames(files: seq<File>) {
    && (forall i | 0 <= i < |files| :: files[i].name != "")
    && (forall i, j | 0 <= i < j < |files| :: files[i].name != files[j].name)
  }

  lemma {:induction false} InsideByName(existing: seq<File>, i: nat)
    requires ProperNames(existing) && i < |existing|
    ensures Inside(existing, existing[i].name) == Some(existing[i].data)
  {
    if i < |existing| - 1 {
      InsideByName(existing[..|existing| - 1], i);
    }
  }

  function NameEntries(files: seq<File>): (r: seq<BundleEntry>)
    ensures |r| == |files| && forall i | 0 <= i < |files| :: r[i] == BundleEntry(files[i].name, NO_ID)
  {
    seq(|files|, i requires 0 <= i < |files| => BundleEntry(files[i].name, NO_ID))
  }

  lemma {:induction false} EntriesByName(
      c: Crypto, st: State, objs: map<Id, Bytes>, owner: string, existing: seq<File>, n: nat)
    requires ProperNames(existing) && n <= |existing|
    ensures EntryFiles(c, st, objs, owner, existing, NameEntries(existing[..n])) == Ok(existing[..n])
    ensures Absorbed(NameEntries(existing[..n])) == []
  {
    if n > 0 {
      EntriesByName(c, st, objs, owner, existing, n - 1);
      InsideByName(existing, n - 1);
      var entries := NameEntries(existing[..n]);
      assert entries[..n - 1] == NameEntries(existing[..n - 1]);
      assert EntryFile(c, st, objs, owner, existing, entries[n - 1]) == Ok(existing[n - 1]);
      assert existing[..n] == existing[..n - 1] + [existing[n - 1]];
    }
  }

  /** Rebundling by all the names already inside, in order, reproduces the same list of names
      and bytes, and absorbs nothing. */
  lemma RebundleByNameIsIdentity(c: Crypto, st: State, objs: map<Id, Bytes>, owner: string, existing: seq<File>)
    requires ProperNames(existing)
    ensures EntryFiles(c, st, objs, owner, existing, NameEntries(existing)) == Ok(existing)
    ensures Absorbed(NameEntries(existing)) == []
    ensures Renamed(existing) == existing
  {
    assert existing[..|existing|] == existing;
    EntriesByName(c, st, objs, owner, existing, |existing|);
    NamesUnchanged(FileNames(existing));
  }

  /** What a bundle stores always has proper names, so it can be rebundled by them. */
  lemma RenamedIsProper(files: seq<File>)
    ensures ProperNames(Renamed(files))
  {
    NamesDistinct(FileNames(files));
    NamesNonEmpty(FileNames(files));
  }

  // ---- Assembling a bundle -----------------------------------------------------------------------

  // The container made of the loose sources, or the first reason there is none.
  function Assembled(c: Crypto, p: Packaging, st: State, objs: map<Id, Bytes>, owner: string, ids: seq<Id>): Result<Bytes> {
    if |ids| < 1 then Err(NotBundleable)
    else
      match SourceFiles(c, st, objs, owner, ids)
      case Err(e) => Err(e)
      case Ok(loose) => Built(p, Renamed(loose))
  }

  function Built(p: Packaging, files: seq<File>): Result<Bytes> {
    match p.buildUnsigned(files)
    case None => Err(Error.Packaging)
    case Some(bundle) => Ok(bundle)
  }

  // What a draft edit starts from: the row's digest and the files inside it.
  function Draft(c: Crypto, p: Packaging, st: State, objs: map<Id, Bytes>, owner: string, id: Id): Result<(string, seq<File>)> {
    match ContentOf(c, st, objs, id, Caller(owner, "", "", ""))
    case Err(e) => Err(e)
    case Ok((cur, data)) =>
      if cur.owner != owner || !cur.kind.Container? || !cur.status.Received? then Err(NotBundleable)
      else
        match p.dataObjects(data)
        case None => Err(Error.Packaging)
        case Some(existing) => Ok((cur.contentHash, existing))
  }

  // The container made of the entries, or the first reason there is none.
  function Reassembled(
      c: Crypto, p: Packaging, st: State, objs: map<Id, Bytes>, owner: string, id: Id, entries: seq<BundleEntry>): Result<(string, Bytes)>
  {
    if |entries| < 1 then Err(NotBundleable)
    else
      match Draft(c, p, st, objs, owner, id)
      case Err(e) => Err(e)
      case Ok((expected, existing)) =>
        match EntryFiles(c, st, objs, owner, existing, entries)
        case Err(e) => Err(e)
        case Ok(files) =>
          match Built(p, Renamed(files))
          case Err(e) => Err(e)
          case Ok(bundle) => Ok((expected, bundle))
  }

  lemma {:induction false} SourceFaultStands(c: Crypto, st: State, objs: map<Id, Bytes>, owner: string, ids: seq<Id>, n: nat)
    requires n <= |ids| && SourceFiles(c, st, objs, owner, ids[..n]).Err?
    ensures SourceFiles(c, st, objs, owner, ids) == SourceFiles(c, st, objs, owner, ids[..n])
    decreases |ids|
  {
    if n == |ids| {
      assert ids[..n] == ids;
    } else {
      assert ids[..|ids| - 1][..n] == ids[..n];
      SourceFaultStands(c, st, objs, owner, ids[..|ids| - 1], n);
    }
  }

  lemma {:induction false} EntryFaultStands(
      c: Crypto, st: State, objs: map<Id, Bytes>, owner: string, existing: seq<File>, entries: seq<BundleEntry>, n: nat)
    requires n <= |entries| && EntryFiles(c, st, objs, owner, existing, entries[..n]).Err?
    ensures EntryFiles(c, st, objs, owner, existing, entries) == EntryFiles(c, st, objs, owner, existing, entries[..n])
    decreases |entries|
  {
    if n == |entries| {
      assert entries[..n] == entries;
    } else {
      assert entries[..|entries| - 1][..n] == entries[..n];
      EntryFaultStands(c, st, objs, owner, existing, entries[..|entries| - 1], n);
    }
  }

  lemma RenamedOneMore(files: seq<File>, f: File)
    ensures Renamed(files + [f]) ==
              Renamed(files) + [File(UniqueName(Elements(FileNames(Renamed(files))), f.name, |files|), f.data)]
  {
    var names := FileNames(files);
    assert FileNames(files + [f])[..|files|] == names;
    assert FileNames(Renamed(files)) == NamesOf(names);
  }

  lemma {:induction false} SourcesOneByOne(c: Crypto, st: State, objs: map<Id, Bytes>, owner: string, ids: seq<Id>)
    requires SourceFiles(c, st, objs, owner, ids).Ok?
    ensures var loose := SourceFiles(c, st, objs, owner, ids).value;
            && |loose| == |ids|
            && forall i | 0 <= i < |ids| :: SourceFile(c, st, objs, owner, ids[i]) == Ok(loose[i])
  {
    if ids != [] {
      SourcesOneByOne(c, st, objs, owner, ids[..|ids| - 1]);
    }
  }

  lemma SourceIsTheRow(c: Crypto, w: World, objs: map<Id, Bytes>, owner: string, id: Id)
    requires Settled(c, w, objs) && SourceFile(c, w.st, objs, owner, id).Ok?
    ensures id in w.st.rows && MayRead(w.st, w.st.rows[id], Caller(owner, "", "", ""))
    ensures c.hash(SourceFile(c, w.st, objs, owner, id).value.data) == w.st.rows[id].contentHash
  {
    ContentMatchesRow(c, w, objs, id, Caller(owner, "", "", ""));
  }

  /** A bundle holds exactly its sources' bytes, in the given order, under distinct names. */
  lemma BundleHoldsItsSources(c: Crypto, p: Packaging, w: World, objs: map<Id, Bytes>, owner: string, ids: seq<Id>)
    requires p.Lawful() && Settled(c, w, objs) && Assembled(c, p, w.st, objs, owner, ids).Ok?
    ensures p.dataObjects(Assembled(c, p, w.st, objs, owner, ids).value).Some?
    ensures var files := p.dataObjects(Assembled(c, p, w.st, objs, owner, ids).value).value;
            && |files| == |ids| && ProperNames(files)
            && forall i | 0 <= i < |ids| :: ids[i] in w.st.rows && c.hash(files[i].data) == w.st.rows[ids[i]].contentHash
  {
    var loose := SourceFiles(c, w.st, objs, owner, ids).value;
    SourcesOneByOne(c, w.st, objs, owner, ids);
    RenamedIsProper(loose);
    forall i | 0 <= i < |ids|
      ensures ids[i] in w.st.rows && c.hash(Renamed(loose)[i].data) == w.st.rows[ids[i]].contentHash
    {
      SourceIsTheRow(c, w, objs, owner, ids[i]);
    }
  }

  /** After a bundle its row opens to the container, its sources' rows, access entries and
      objects are gone, and every other row, entry and object is as it was. */
  lemma BundleConserves(
      c: Crypto, p: Packaging, w: World, objs: map<Id, Bytes>, objs': map<Id, Bytes>, bundle: Bytes, a: Action)
    requires c.Lawful() && Settled(c, w, objs)
    requires a.Bundle? && Enabled(w, a) && Refusal(w.st, a).None? && a.bundle.contentHash == c.hash(bundle)
    requires Assembled(c, p, w.st, objs, a.bundle.owner, a.bundle.sourceIds) == Ok(bundle)
    requires ThreePhases(c, Freed(w.st, a), Landing(w.st, a), objs, objs')
    ensures var s', gone := Apply(w.st, a), Elements(a.bundle.sourceIds);
            && a.id in s'.rows && s'.rows == (w.st.rows - gone)[a.id := s'.rows[a.id]]
            && ContentOf(c, s', objs', a.id, Caller(a.bundle.owner, "", "", "")) == Ok((s'.rows[a.id], bundle))
            && (forall g :: g in s'.acl <==>
                  (g in w.st.acl && g.chainRoot !in gone) || g == Grant(a.id, Sub, a.bundle.owner, [Read, CoSign]))
            && objs' == (objs - RefsAmong(w.st.rows, gone))[a.bundle.storageRef := objs'[a.bundle.storageRef]]
  {
    var ids := a.bundle.sourceIds;
    SourcesOneByOne(c, w.st, objs, a.bundle.owner, ids);
    assert SourceFile(c, w.st, objs, a.bundle.owner, ids[0]).Ok?;
    SourceIsTheRow(c, w, objs, a.bundle.owner, ids[0]);
    BundledState(w, a);
    OwnerReadsBundle(w, a, ids[0]);
    OpensToBundle(c, objs'[a.bundle.storageRef], a.bundle.encryptionKeyRef, bundle, a.bundle.size);
  }

  lemma OpensToBundle(c: Crypto, object_: Bytes, keyRef: string, bundle: Bytes, size: nat)
    requires c.Lawful() && Opens(c, object_, keyRef, c.hash(bundle), size)
    ensures c.Plain(object_, keyRef) == Some(bundle)
  {}

  lemma BundledState(w: World, a: Action)
    requires a.Bundle? && Enabled(w, a) && Inv(w) && Refusal(w.st, a).None?
    ensures var s', ids := Apply(w.st, a), a.bundle.sourceIds;
            && a.id !in ids && a.id in s'.rows && s'.rows[a.id] == BundleRow(a.bundle, a.id, a.now)
            && s'.rows == (w.st.rows - Elements(ids))[a.id := s'.rows[a.id]]
            && (forall g :: g in s'.acl <==>
                  (g in w.st.acl && g.chainRoot !in ids) || g == Grant(a.id, Sub, a.bundle.owner, [Read, CoSign]))
  {
    NoFault(w.st.rows, a.bundle.sourceIds, 0, a.bundle.owner, true);
    var mine := Grant(a.id, Sub, a.bundle.owner, [Read, CoSign]);
    forall g ensures g in Apply(w.st, a).acl <==> (g in w.st.acl && g.chainRoot !in a.bundle.sourceIds) || g == mine {
      KeptIsFilter(w.st.acl + [mine], ChainNotIn(Elements(a.bundle.sourceIds)), g);
    }
  }

  // The owner read a source, so it has a subject, and the new chain's entry names that subject.
  lemma OwnerReadsBundle(w: World, a: Action, source: Id)
    requires a.Bundle? && Enabled(w, a) && Inv(w) && Refusal(w.st, a).None?
    requires source in w.st.rows && MayRead(w.st, w.st.rows[source], Caller(a.bundle.owner, "", "", ""))
    ensures Reads.Get(Apply(w.st, a), a.id, Caller(a.bundle.owner, "", "", "")) == Ok(BundleRow(a.bundle, a.id, a.now))
  {
    BundledState(w, a);
    var mine := Grant(a.id, Sub, a.bundle.owner, [Read, CoSign]);
    assert mine in Apply(w.st, a).acl && Read in mine.rights;
    assert NormalizeSerial("") == "";
    assert HeldBy(mine, a.id, Caller(a.bundle.owner, "", "", ""));
  }

  lemma {:induction false} FaultsIgnoreBytes(
      rows: map<Id, Document>, ids: seq<Id>, i: nat, owner: string, distinct: bool, input: ReplaceInput, now: Time)
    requires i <= |ids| && input.id in rows && rows[input.id].status.Signed?
    ensures FirstFault(rows[input.id := ReplacedRow(rows[input.id], input, now)], ids, i, owner, distinct) ==
              FirstFault(rows, ids, i, owner, distinct)
    decreases |ids| - i
  {
    if i < |ids| {
      FaultsIgnoreBytes(rows, ids, i + 1, owner, distinct, input, now);
    }
  }

  /** The limit of the above: absorbing compares no digests, so a bundle whose signed source was
      replaced after it was read is accepted all the same, and the newer bytes go with the row.
      Only a plain source, whose bytes never change, cannot be overtaken like this. */
  lemma BundleAcceptsOvertakenSource(s: State, input: ReplaceInput, bundle: BundleInput, now: Time)
    requires ReplaceRefusal(s, input).None? && BundleRefusal(s, bundle).None? && input.id in bundle.sourceIds
    ensures var s' := Apply(s, Replace(input, now));
            && BundleRefusal(s', bundle).None?
            && s'.rows[input.id].contentHash == input.contentHash && !s.rows[input.id].kind.Source?
  {
    NoFault(s.rows, bundle.sourceIds, 0, bundle.owner, true);
    FaultsIgnoreBytes(s.rows, bundle.sourceIds, 0, bundle.owner, true, input, now);
  }

  /** Rebundling by every name already inside, in order, reproduces the same list of names and
      bytes under the same row. */
  lemma RebundleReproduces(
      c: Crypto, p: Packaging, st: State, objs: map<Id, Bytes>, owner: string, id: Id, existing: seq<File>)
    requires p.Lawful() && ProperNames(existing) && |existing| >= 1
    requires Draft(c, p, st, objs, owner, id).Ok? && Draft(c, p, st, objs, owner, id).value.1 == existing
    ensures var r := Reassembled(c, p, st, objs, owner, id, NameEntries(existing));
            && (r.Ok? <==> p.buildUnsigned(existing).Some?)
            && (r.Ok? ==> p.dataObjects(r.value.1) == Some(existing) && r.value.0 == Draft(c, p, st, objs, owner, id).value.0)
  {
    RebundleByNameIsIdentity(c, st, objs, owner, existing);
  }
}
