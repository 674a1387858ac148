/** The document service: the metadata store, the object store and the cipher put together. */
module Service {
  import opened Types
  import opened Metadata
  import opened MetadataStore
  import Reads
  import opened StoreRuns
  import opened ByteModel
  import opened BlobStore
  import opened Naming
  import opened Documents

  class DocumentService {
    const store: Memory
    const blob: Blobs
    const crypto: Crypto
    const packaging: Packaging
    const ttl: int
    ghost var issued: set<Id>

    ghost function Now(): World
      reads this, store
    {
      World(store.Abs(), issued)
    }

    ghost predicate Valid()
      reads this, store, blob, blob.bufs.Values
    {
      crypto.Lawful() && packaging.Lawful() && store.Valid() && blob.Valid()
    }

    // The three phases of one call: the row change is the store's, and the objects gain the
    // new one and lose exactly what the store handed back. By WriteSettles a call of this
    // shape keeps rows, digests and objects in agreement.
    twostate predicate Performed(a: Action)
      reads this, store, blob
    {
      && Now() == Step(old(Now()), a)
      && ThreePhases(crypto, Freed(old(Now()).st, a), Landing(old(Now()).st, a), old(blob.objs), blob.objs)
    }

    /** So every call of this shape, from a settled service, leaves a settled one. */
    twostate lemma PerformedSettles(a: Action)
      requires Performed(a) && Enabled(old(Now()), a)
      requires Settled(crypto, old(Now()), old(blob.objs))
      ensures Settled(crypto, Now(), blob.objs)
    {
      WriteSettles(crypto, old(Now()), a, old(blob.objs), blob.objs);
    }

    constructor (crypto: Crypto, packaging: Packaging, ttl: int)
      requires crypto.Lawful() && packaging.Lawful()
      ensures Valid() && fresh(store) && fresh(blob)
      ensures Now() == EMPTY && blob.objs == map[]
      ensures this.crypto == crypto && this.packaging == packaging && this.ttl == ttl
    {
      this.crypto, this.packaging, this.ttl := crypto, packaging, ttl;
      store := new Memory();
      blob := new Blobs();
      issued := {};
    }

    // A draw is new: no object has its key and no row names it.
    ghost predicate FreshDraw(draw: Draw)
      reads this, store, blob
    {
      draw.objKey != NO_ID && draw.objKey !in blob.objs && draw.objKey !in LiveRefs(store.rows)
    }

    method Content(id: Id, caller: Caller) returns (r: Result<(Document, Bytes)>)
      requires blob.Valid()
      ensures r == ContentOf(crypto, store.Abs(), blob.objs, id, caller)
    {
      var found := store.Get(id, caller);
      if found.Err? {
        return Err(found.error);
      }
      var doc := found.value;
      if doc.storageRef == NO_ID || doc.encryptionKeyRef == "" {
        return Err(Gone);
      }
      var object_ := blob.Get(doc.storageRef);
      if object_.None? {
        return Err(Gone);
      }
      var key := crypto.unwrap(doc.encryptionKeyRef);
      if key.None? {
        return Err(Unreadable);
      }
      var data := crypto.open(key.value, object_.value[..]);
      r := if data.None? then Err(Unreadable) else Ok((doc, data.value));
    }

    method SealAndStore(data: Bytes, draw: Draw) returns (keyRef: string)
      requires blob.Valid()
      modifies blob
      ensures blob.Valid() && blob.objs == old(blob.objs)[draw.objKey := Sealed(crypto, draw, data)]
      ensures keyRef == KeyRef(crypto, draw)
    {
      keyRef := crypto.wrap(draw.dataKey, draw.wrapNonce);
      var sealed := crypto.seal(draw.dataKey, draw.sealNonce, data);
      var buf := new Octet[|sealed|](i requires 0 <= i < |sealed| => sealed[i]);
      assert buf[..] == sealed;
      blob.Put(draw.objKey, buf);
    }

    method DeleteAll(refs: seq<PurgedRef>)
      requires blob.Valid()
      modifies blob
      ensures blob.Valid() && blob.objs == old(blob.objs) - KeysAmong(refs)
    {
      for i := 0 to |refs|
        invariant blob.Valid() && blob.bufs.Values <= old(blob.bufs.Values)
        invariant blob.objs == old(blob.objs) - KeysAmong(refs[..i])
      {
        if refs[i].storageRef != NO_ID {
          blob.Delete(refs[i].storageRef);
        }
        assert refs[..i + 1] == refs[..i] + [refs[i]];
        assert KeysAmong(refs[..i + 1]) == KeysAmong(refs[..i]) + KeysAmong([refs[i]]);
      }
      assert refs[..|refs|] == refs;
    }

    // Phase two of an insert: the row, or the new object taken back.
    method CommitInsert(input: InsertInput, id: Id, now: Time) returns (r: Result<Id>)
      requires store.Valid() && blob.Valid()
      modifies store, blob
      ensures store.Valid() && blob.Valid() && store.Abs() == Apply(old(store.Abs()), Insert(input, id, now))
      ensures blob.objs == if r.Err? then old(blob.objs) - {input.storageRef} else old(blob.objs)
      ensures match Refusal(old(store.Abs()), Insert(input, id, now))
              case Some(e) => r == Err(e)
              case None => r == Ok(id)
    {
      r := store.Insert(input, id, now);
      if r.Err? {
        blob.Delete(input.storageRef);
      }
    }

    // Phase two of a replacement and what follows it: the superseded object out, or the new one.
    method CommitReplace(input: ReplaceInput, now: Time) returns (r: Result<Document>)
      requires store.Valid() && blob.Valid()
      modifies store, blob
      ensures store.Valid() && blob.Valid() && store.Abs() == Apply(old(store.Abs()), Replace(input, now))
      ensures match ReplaceRefusal(old(store.Abs()), input)
              case Some(e) => r == Err(e)
              case None => input.id in store.rows && r == Ok(store.rows[input.id])
      ensures blob.objs == old(blob.objs)
                           - (if r.Err? then {input.storageRef} else RefsAmong(old(store.rows), {input.id}))
    {
      var swapped := store.ReplaceContainerBlob(input, now);
      if swapped.Err? {
        blob.Delete(input.storageRef);
        return Err(swapped.error);
      }
      DeleteAll([swapped.value.1]);
      assert KeysAmong([swapped.value.1]) == RefsAmong(old(store.rows), {input.id});
      r := Ok(swapped.value.0);
    }

    // The object in, then the row; a refused row takes the object out again.
    method PutAndInsert(row: InsertInput, data: Bytes, draw: Draw, id: Id, now: Time) returns (r: Result<Id>)
      requires Valid() && FreshDraw(draw)
      requires row.storageRef == draw.objKey && row.encryptionKeyRef == KeyRef(crypto, draw)
      requires row.contentHash == crypto.hash(data) && row.size == |data|
      modifies this`issued, store, blob
      ensures Valid() && Performed(Insert(row, id, now))
      ensures match Refusal(old(store.Abs()), Insert(row, id, now))
              case Some(e) => r == Err(e) && store.Abs() == old(store.Abs()) && blob.objs == old(blob.objs)
              case None => r == Ok(id)
    {
      var _ := SealAndStore(data, draw);
      r := CommitInsert(row, id, now);
      issued := issued + {id};
      WritePerforms(crypto, old(Now()).st, Insert(row, id, now), old(blob.objs), draw, data, blob.objs);
    }

    /** Stores a new document; a refused row leaves nothing behind. */
    method Ingest(input: IngestInput, draw: Draw, id: Id, now: Time) returns (r: Result<Document>)
      requires Valid() && FreshDraw(draw)
      modifies this`issued, store, blob
      ensures Valid() && Performed(IngestAction(crypto, packaging, ttl, input, draw, id, now))
      ensures var a := IngestAction(crypto, packaging, ttl, input, draw, id, now);
              match Refusal(old(store.Abs()), a)
              case Some(e) => r == Err(e) && store.Abs() == old(store.Abs()) && blob.objs == old(blob.objs)
              case None => r == Reads.Get(store.Abs(), id, IngestCaller(input))
    {
      var kind, status, inner := input.kind, input.status, [];
      var found := packaging.inspect(input.data);
      if found.Some? {
        if kind.None? {
          kind := Some(Container);
          if status.None? {
            status := Some(Signed);
          }
        }
        inner := found.value;
      }
      var mime := if input.mime == "" then "application/octet-stream" else input.mime;
      var row := InsertInput(
        input.owner, input.tenantId, kind, input.parentId, input.filename, draw.objKey, crypto.hash(input.data),
        mime, |input.data|, status, KeyRef(crypto, draw), input.preservationClass, input.ownerKind,
        input.retentionClass, RetentionFor(input, ttl, now), inner);
      assert IngestAction(crypto, packaging, ttl, input, draw, id, now) == Insert(row, id, now);
      var inserted := PutAndInsert(row, input.data, draw, id, now);
      if inserted.Err? {
        return Err(inserted.error);
      }
      r := store.Get(id, IngestCaller(input));
    }

    /** Replaces a signed head's bytes in place, only if they are still the bytes expected. */
    method ReplaceContainer(id: Id, expected: string, data: Bytes, class_: string, draw: Draw, now: Time)
      returns (r: Result<Document>)
      requires Valid() && FreshDraw(draw)
      modifies store, blob
      ensures Valid() && Performed(ReplaceAction(crypto, id, expected, data, class_, draw, now))
      ensures match ReplaceRefusal(old(store.Abs()), ReplaceAction(crypto, id, expected, data, class_, draw, now).replace)
              case Some(e) => r == Err(e) && store.Abs() == old(store.Abs()) && blob.objs == old(blob.objs)
              case None => id in store.rows && r == Ok(store.rows[id])
    {
      var hash := crypto.hash(data);
      var keyRef := SealAndStore(data, draw);
      r := CommitReplace(ReplaceInput(id, expected, draw.objKey, hash, |data|, keyRef, class_), now);
      WritePerforms(crypto, old(Now()).st, ReplaceAction(crypto, id, expected, data, class_, draw, now),
                    old(blob.objs), draw, data, blob.objs);
    }

    // The sources' bytes in order under unique names, or the first fault.
    method GatherSources(owner: string, ids: seq<Id>) returns (r: Result<seq<File>>)
      requires blob.Valid()
      ensures r == match SourceFiles(crypto, store.Abs(), blob.objs, owner, ids)
                   case Err(e) => Err(e)
                   case Ok(loose) => Ok(Renamed(loose))
    {
      var seen: set<string>, files: seq<File> := {}, [];
      ghost var loose: seq<File> := [];
      assert FileNames(files) == [] && Renamed(loose) == [];
      for i := 0 to |ids|
        invariant SourceFiles(crypto, store.Abs(), blob.objs, owner, ids[..i]) == Ok(loose) && |loose| == i
        invariant files == Renamed(loose) && seen == Elements(FileNames(files))
      {
        assert ids[..i + 1][..i] == ids[..i];
        var content := Content(ids[i], Caller(owner, "", "", ""));
        if content.Err? {
          SourceFaultStands(crypto, store.Abs(), blob.objs, owner, ids, i + 1);
          return Err(content.error);
        }
        var (doc, data) := content.value;
        if doc.owner != owner || !Bundleable(doc.kind, doc.status) {
          SourceFaultStands(crypto, store.Abs(), blob.objs, owner, ids, i + 1);
          return Err(NotBundleable);
        }
        var name, seen' := UniqueObjectName(seen, doc.filename, i);
        RenamedOneMore(loose, File(doc.filename, data));
        NamesOneMore(files, File(name, data));
        files, seen := files + [File(name, data)], seen';
        loose := loose + [File(doc.filename, data)];
      }
      assert ids[..|ids|] == ids;
      r := Ok(files);
    }

    method GatherEntries(owner: string, existing: seq<File>, entries: seq<BundleEntry>)
      returns (r: Result<(seq<File>, seq<Id>)>)
      requires blob.Valid()
      ensures r == match EntryFiles(crypto, store.Abs(), blob.objs, owner, existing, entries)
                   case Err(e) => Err(e)
                   case Ok(files) => Ok((Renamed(files), Absorbed(entries)))
    {
      var seen: set<string>, files: seq<File>, absorb: seq<Id> := {}, [], [];
      ghost var named: seq<File> := [];
      assert FileNames(files) == [] && Renamed(named) == [];
      for i := 0 to |entries|
        invariant EntryFiles(crypto, store.Abs(), blob.objs, owner, existing, entries[..i]) == Ok(named) && |named| == i
        invariant files == Renamed(named) && seen == Elements(FileNames(files))
        invariant absorb == Absorbed(entries[..i])
      {
        assert entries[..i + 1][..i] == entries[..i];
        var file, source := ReadEntry(owner, existing, entries[i]);
        if file.Err? {
          EntryFaultStands(crypto, store.Abs(), blob.objs, owner, existing, entries, i + 1);
          return Err(file.error);
        }
        var name, seen' := UniqueObjectName(seen, file.value.name, i);
        RenamedOneMore(named, file.value);
        NamesOneMore(files, File(name, file.value.data));
        files, seen, absorb := files + [File(name, file.value.data)], seen', absorb + source;
        named := named + [file.value];
      }
      assert entries[..|entries|] == entries;
      r := Ok((files, absorb));
    }

    method ReadEntry(owner: string, existing: seq<File>, e: BundleEntry) returns (r: Result<File>, source: seq<Id>)
      requires blob.Valid()
      ensures r == EntryFile(crypto, store.Abs(), blob.objs, owner, existing, e)
      ensures source == if e.sourceId != NO_ID && e.name == "" then [e.sourceId] else []
    {
      source := [];
      if e.name != "" && e.sourceId == NO_ID {
        var data := Inside(existing, e.name);
        r := if data.None? then Err(NotFound) else Ok(File(e.name, data.value));
      } else if e.sourceId != NO_ID && e.name == "" {
        source := [e.sourceId];
        var content := Content(e.sourceId, Caller(owner, "", "", ""));
        if content.Err? {
          return Err(content.error), source;
        }
        var (doc, data) := content.value;
        if doc.owner != owner || !Bundleable(doc.kind, doc.status) {
          return Err(NotBundleable), source;
        }
        r := Ok(File(doc.filename, data));
      } else {
        r := Err(NotBundleable);
      }
    }

    // The new container in, its row committed and the absorbed objects out; or, refused, the
    // new container out again.
    method PutAndBundle(input: BundleInput, bundle: Bytes, draw: Draw, id: Id, now: Time) returns (r: Option<Error>)
      requires Valid() && FreshDraw(draw) && id !in store.rows
      requires input.storageRef == draw.objKey && input.encryptionKeyRef == KeyRef(crypto, draw)
      requires input.contentHash == crypto.hash(bundle) && input.size == |bundle|
      modifies this`issued, store, blob
      ensures Valid() && Performed(Action.Bundle(input, id, now))
      ensures r == BundleRefusal(old(store.Abs()), input)
      ensures r.Some? ==> store.Abs() == old(store.Abs()) && blob.objs == old(blob.objs)
    {
      var _ := SealAndStore(bundle, draw);
      r := CommitBundle(input, id, now);
      issued := issued + {id};
      WritePerforms(crypto, old(Now()).st, Action.Bundle(input, id, now), old(blob.objs), draw, bundle, blob.objs);
    }

    // Phase two of a bundle and what follows it: the absorbed objects out, or the new one.
    method CommitBundle(input: BundleInput, id: Id, now: Time) returns (r: Option<Error>)
      requires store.Valid() && blob.Valid() && id !in store.rows
      modifies store, blob
      ensures store.Valid() && blob.Valid() && store.Abs() == Apply(old(store.Abs()), Action.Bundle(input, id, now))
      ensures r == BundleRefusal(old(store.Abs()), input)
      ensures blob.objs == old(blob.objs)
                           - (if r.Some? then {input.storageRef} else RefsAmong(old(store.rows), Elements(input.sourceIds)))
    {
      var absorbed := store.Bundle(input, id, now);
      if absorbed.Err? {
        blob.Delete(input.storageRef);
        return Some(absorbed.error);
      }
      DeleteAll(absorbed.value);
      OrderedKeys(old(store.rows), absorbed.value, input.sourceIds);
      r := None;
    }

    /** Packages loose sources into one unsigned container; refused, it leaves no trace. */
    method Bundle(owner: string, tenantId: string, ids: seq<Id>, filename: string, draw: Draw, id: Id, now: Time)
      returns (r: Result<Document>)
      requires Valid() && FreshDraw(draw) && id !in store.rows
      modifies this`issued, store, blob
      ensures Valid()
      ensures match Assembled(crypto, packaging, old(store.Abs()), old(blob.objs), owner, ids)
              case Err(e) => r == Err(e) && store.Abs() == old(store.Abs()) && blob.objs == old(blob.objs)
              case Ok(bundle) =>
                var loose := SourceFiles(crypto, old(store.Abs()), old(blob.objs), owner, ids).value;
                var name := if filename == "" then BundleFilename(Renamed(loose)[0].name) else filename;
                var a := BundleAction(crypto, packaging, ttl, owner, tenantId, ids, name, bundle, draw, id, now);
                && Performed(a)
                && match BundleRefusal(old(store.Abs()), a.bundle)
                   case Some(e) => r == Err(e) && store.Abs() == old(store.Abs()) && blob.objs == old(blob.objs)
                   case None => r == Reads.Get(store.Abs(), id, Caller(owner, "", "", ""))
    {
      if |ids| < 1 {
        return Err(NotBundleable);
      }
      var gathered := GatherSources(owner, ids);
      if gathered.Err? {
        return Err(gathered.error);
      }
      var files := gathered.value;
      SourcesOneByOne(crypto, store.Abs(), blob.objs, owner, ids);
      var name := if filename == "" then BundleFilename(files[0].name) else filename;
      var built := packaging.buildUnsigned(files);
      if built.None? {
        return Err(Error.Packaging);
      }
      var input := BundleInput(
        owner, tenantId, ids, name, draw.objKey, crypto.hash(built.value), CONTAINER_MIME, |built.value|,
        KeyRef(crypto, draw), "", now + ttl, Manifest(packaging, built.value));
      var refused := PutAndBundle(input, built.value, draw, id, now);
      if refused.Some? {
        return Err(refused.value);
      }
      r := store.Get(id, Caller(owner, "", "", ""));
    }

    method PutAndRebundle(input: RebundleInput, bundle: Bytes, draw: Draw, now: Time) returns (r: Result<Document>)
      requires Valid() && FreshDraw(draw)
      requires input.storageRef == draw.objKey && input.encryptionKeyRef == KeyRef(crypto, draw)
      requires input.contentHash == crypto.hash(bundle) && input.size == |bundle|
      modifies store, blob
      ensures Valid() && Performed(Action.Rebundle(input, now))
      ensures match RebundleRefusal(old(store.Abs()), input)
              case Some(e) => r == Err(e) && store.Abs() == old(store.Abs()) && blob.objs == old(blob.objs)
              case None => input.id in store.rows && r == Ok(store.rows[input.id])
    {
      var _ := SealAndStore(bundle, draw);
      r := CommitRebundle(input, now);
      WritePerforms(crypto, old(Now()).st, Action.Rebundle(input, now), old(blob.objs), draw, bundle, blob.objs);
    }

    method CommitRebundle(input: RebundleInput, now: Time) returns (r: Result<Document>)
      requires store.Valid() && blob.Valid()
      modifies store, blob
      ensures store.Valid() && blob.Valid() && store.Abs() == Apply(old(store.Abs()), Action.Rebundle(input, now))
      ensures match RebundleRefusal(old(store.Abs()), input)
              case Some(e) => r == Err(e)
              case None => input.id in store.rows && r == Ok(store.rows[input.id])
      ensures blob.objs == old(blob.objs)
                           - (if r.Err? then {input.storageRef}
                              else RefsAmong(old(store.rows), {input.id} + Elements(input.absorbSourceIds)))
    {
      var swapped := store.Rebundle(input, now);
      if swapped.Err? {
        blob.Delete(input.storageRef);
        return Err(swapped.error);
      }
      var refs := [swapped.value.1] + swapped.value.2;
      DeleteAll(refs);
      OrderedKeys(old(store.rows), refs, [input.id] + input.absorbSourceIds);
      assert Elements([input.id] + input.absorbSourceIds) == {input.id} + Elements(input.absorbSourceIds);
      r := Ok(swapped.value.0);
    }

    /** Rebuilds an unsigned bundle from the given entries; refused, it leaves no trace. */
    method Rebundle(owner: string, id: Id, entries: seq<BundleEntry>, draw: Draw, now: Time) returns (r: Result<Document>)
      requires Valid() && FreshDraw(draw)
      modifies store, blob
      ensures Valid()
      ensures match Reassembled(crypto, packaging, old(store.Abs()), old(blob.objs), owner, id, entries)
              case Err(e) => r == Err(e) && store.Abs() == old(store.Abs()) && blob.objs == old(blob.objs)
              case Ok((expected, bundle)) =>
                var a := RebundleAction(crypto, packaging, owner, id, expected, bundle, Absorbed(entries), draw, now);
                && Performed(a)
                && match RebundleRefusal(old(store.Abs()), a.rebundle)
                   case Some(e) => r == Err(e) && store.Abs() == old(store.Abs()) && blob.objs == old(blob.objs)
                   case None => id in store.rows && r == Ok(store.rows[id])
    {
      if |entries| < 1 {
        return Err(NotBundleable);
      }
      var current := Content(id, Caller(owner, "", "", ""));
      if current.Err? {
        return Err(current.error);
      }
      var (cur, data) := current.value;
      if cur.owner != owner || !cur.kind.Container? || !cur.status.Received? {
        return Err(NotBundleable);
      }
      var existing := packaging.dataObjects(data);
      if existing.None? {
        return Err(Error.Packaging);
      }
      var gathered := GatherEntries(owner, existing.value, entries);
      if gathered.Err? {
        return Err(gathered.error);
      }
      var built := packaging.buildUnsigned(gathered.value.0);
      if built.None? {
        return Err(Error.Packaging);
      }
      var input := RebundleInput(
        owner, id, cur.contentHash, draw.objKey, crypto.hash(built.value), |built.value|, KeyRef(crypto, draw),
        Manifest(packaging, built.value), gathered.value.1);
      r := PutAndRebundle(input, built.value, draw, now);
    }

    /** Removes the caller's access; the last one out takes the objects along. */
    method Delete(id: Id, caller: Caller, now: Time) returns (r: Result<Document>)
      requires Valid()
      modifies store, blob
      ensures Valid() && Performed(RemoveAccess(id, caller, now))
      ensures match RemoveRefusal(old(store.Abs()), id, caller)
              case Some(e) => r == Err(e) && store.Abs() == old(store.Abs()) && blob.objs == old(blob.objs)
              case None => r == Reads.Get(old(store.Abs()), id, caller)
    {
      ghost var a := RemoveAccess(id, caller, now);
      assert blob.objs == blob.objs - {};
      r := store.Get(id, caller);
      if r.Err? {
        return;
      }
      var purged := store.RemoveAccess(id, caller, now);
      if purged.Err? {
        return Err(purged.error);
      }
      DeleteAll(purged.value);
      FreedKeys(old(store.rows), purged.value, Released(old(store.Abs()), a));
    }

    /** One batch of the retention sweep. */
    method Sweep(cutoff: Time, limit: int, clock: Time) returns (n: nat, ghost taken: set<Id>)
      requires Valid()
      modifies store, blob
      ensures Valid() && Performed(SweepRetention(taken, cutoff, clock))
      ensures taken <= Eligible(old(store.rows), cutoff) && n == |taken|
      ensures 0 < limit ==> n <= limit
      ensures taken == Eligible(old(store.rows), cutoff) || n == limit > 0
    {
      var refs := store.SweepRetention(cutoff, limit, clock);
      taken := PurgedIds(refs);
      DeleteAll(refs);
      FreedKeys(old(store.rows), refs, taken);
      assert Freed(old(Now()).st, SweepRetention(taken, cutoff, clock)) == KeysAmong(refs);
      n := |refs|;
    }

    method SweepHistory(before: Time, limit: int) returns (n: nat, ghost taken: set<Id>)
      requires Valid()
      modifies store
      ensures Valid() && Performed(Action.SweepHistory(taken, before))
      ensures taken <= Erasable(old(store.rows), before) && n == |taken|
      ensures n <= (if limit <= 0 then 500 else limit)
      ensures taken == Erasable(old(store.rows), before) || n == (if limit <= 0 then 500 else limit)
    {
      n, taken := store.SweepHistory(before, limit);
      assert blob.objs == blob.objs - {};
    }
  }

  // A write that put its object first and then deleted what the commit handed back, or its own
  // object when the commit was refused, has the shape of the three phases.
  lemma WritePerforms(c: Crypto, st: State, a: Action, objs: map<Id, Bytes>, draw: Draw, data: Bytes, objs': map<Id, Bytes>)
    requires c.Lawful() && LoadOf(a).Some?
    requires var l := LoadOf(a).value;
             l.storageRef == draw.objKey && l.keyRef == KeyRef(c, draw) && l.hash == c.hash(data) && l.size == |data|
    requires draw.objKey !in objs && draw.objKey !in LiveRefs(st.rows)
    requires objs' == objs[draw.objKey := Sealed(c, draw, data)]
                      - (if Refusal(st, a).Some? then {draw.objKey} else Freed(st, a))
    ensures ThreePhases(c, Freed(st, a), Landing(st, a), objs, objs')
    ensures Refusal(st, a).Some? ==> objs' == objs
  {
    SealedOpens(c, draw, data);
    FreedAreLive(st.rows, Released(st, a));
  }

  lemma FreedAreLive(rows: map<Id, Document>, released: set<Id>)
    ensures RefsAmong(rows, released) <= LiveRefs(rows)
  {}

  function KeysAmong(refs: seq<PurgedRef>): set<Id> {
    set p | p in refs && p.storageRef != NO_ID :: p.storageRef
  }

  lemma OrderedKeys(rows: map<Id, Document>, refs: seq<PurgedRef>, ids: seq<Id>)
    requires RefsInOrder(refs, rows, ids)
    ensures KeysAmong(refs) == RefsAmong(rows, Elements(ids))
  {
    forall k | k in RefsAmong(rows, Elements(ids)) ensures k in KeysAmong(refs) {
      var id :| id in ids && rows[id].storageRef == k && k != NO_ID;
      var i :| 0 <= i < |ids| && ids[i] == id;
      assert refs[i] in refs && refs[i].storageRef == k;
    }
    forall k | k in KeysAmong(refs) ensures k in RefsAmong(rows, Elements(ids)) {
      var p :| p in refs && p.storageRef == k;
      var i :| 0 <= i < |refs| && refs[i] == p;
      assert ids[i] in Elements(ids);
    }
  }

  lemma NamesOneMore(files: seq<File>, f: File)
    ensures Elements(FileNames(files + [f])) == Elements(FileNames(files)) + {f.name}
  {
    var names := FileNames(files);
    assert FileNames(files + [f]) == names + [f.name];
    assert forall x :: x in names + [f.name] <==> x in names || x == f.name;
  }

  lemma FreedKeys(rows: map<Id, Document>, refs: seq<PurgedRef>, ids: set<Id>)
    requires RefsOf(refs, rows, ids)
    ensures KeysAmong(refs) == RefsAmong(rows, ids)
  {
    forall k | k in RefsAmong(rows, ids) ensures k in KeysAmong(refs) {
      var id :| id in ids && rows[id].storageRef == k && k != NO_ID;
      assert id in PurgedIds(refs);
      var p :| p in refs && p.id == id;
      assert p.storageRef == k;
    }
  }
}
