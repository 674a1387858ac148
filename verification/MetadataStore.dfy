/** The in-memory metadata store: one map of rows and one access list, updated in place.
    Every loop over the rows visits them in an arbitrary order. */
module MetadataStore {
  import opened Types
  import opened Paging
  import opened Metadata
  import opened Reads

  function PurgedIds(refs: seq<PurgedRef>): set<Id> { set p | p in refs :: p.id }

  // The refs are those of exactly these rows, each once.
  ghost predicate RefsOf(refs: seq<PurgedRef>, rows: map<Id, Document>, ids: set<Id>) {
    && ids <= rows.Keys
    && |refs| == |ids|
    && PurgedIds(refs) == ids
    && forall p | p in refs :: p.id in rows && p == RefOf(rows[p.id])
  }

  lemma RefsOfGrows(refs: seq<PurgedRef>, rows: map<Id, Document>, ids: set<Id>, id: Id)
    requires Keyed(rows) && RefsOf(refs, rows, ids) && id in rows && id !in ids
    ensures RefsOf(refs + [RefOf(rows[id])], rows, ids + {id})
  {
    var more := refs + [RefOf(rows[id])];
    assert PurgedIds(more) == ids + {id} by {
      assert forall p :: p in more <==> p in refs || p == RefOf(rows[id]);
      assert RefOf(rows[id]) in more;
    }
  }

  lemma PurgeOneMore(rows: map<Id, Document>, ids: set<Id>, id: Id, now: Time)
    requires id in rows && id !in ids
    ensures PurgeRows(rows, ids + {id}, now) == PurgeRows(rows, ids, now)[id := PurgedRow(rows[id], now)]
  {}

  // Of the keys met so far, exactly the wanted ones are done.
  ghost predicate Splits(met: set<Id>, done: set<Id>, wanted: set<Id>) {
    && done <= wanted
    && forall k | k in met && k in wanted :: k in done
  }

  lemma ExpireOneMore(rows: map<Id, Document>, ids: set<Id>, id: Id, clock: Time)
    requires id in rows && id !in ids
    ensures ExpireRows(rows, ids + {id}, clock) == ExpireRows(rows, ids, clock)[id := ExpiredRow(rows[id], clock)]
  {}

  /** Filtering a slice into its own backing array: the write position never passes the read
      position, so every entry is read before it can be overwritten. */
  method CompactInPlace(buf: array<Grant>, c: Criterion) returns (n: nat)
    modifies buf
    ensures n <= buf.Length
    ensures buf[..n] == Kept(old(buf[..]), c)
  {
    n := 0;
    for i := 0 to buf.Length
      invariant n <= i
      invariant buf[..n] == Kept(old(buf[..])[..i], c)
      invariant buf[i..] == old(buf[i..])
    {
      var g := buf[i];
      assert g == old(buf[..])[i] by { assert buf[i..][0] == old(buf[i..])[0]; }
      assert old(buf[..])[..i + 1][..i] == old(buf[..])[..i];
      if c.Keeps(g) {
        buf[n] := g;
        n := n + 1;
      }
      assert buf[i + 1..] == old(buf[i + 1..]) by {
        assert old(buf[i + 1..]) == old(buf[i..])[1..];
      }
    }
    assert old(buf[..])[..buf.Length] == old(buf[..]);
  }

  class Memory {
    var rows: map<Id, Document>
    var acl: seq<Grant>

    ghost predicate Valid()
      reads this
    {
      Keyed(rows)
    }

    ghost function Abs(): State
      reads this
    {
      State(rows, acl)
    }

    constructor ()
      ensures Valid() && Abs() == State(map[], [])
    {
      rows := map[];
      acl := [];
    }

    method FilterAcl(c: Criterion)
      modifies this`acl
      ensures acl == Kept(old(acl), c)
    {
      var entries := acl;
      var buf := new Grant[|entries|](i requires 0 <= i < |entries| => entries[i]);
      assert buf[..] == entries;
      var n := CompactInPlace(buf, c);
      acl := buf[..n];
    }

    method Insert(input: InsertInput, id: Id, now: Time) returns (r: Result<Id>)
      requires Valid()
      modifies this
      ensures Valid()
      ensures Abs() == Apply(old(Abs()), Action.Insert(input, id, now))
      ensures r == if Refusal(old(Abs()), Action.Insert(input, id, now)).Some?
                   then Err(Refusal(old(Abs()), Action.Insert(input, id, now)).value) else Ok(id)
    {
      var kind := KindOf(input);
      if (kind.Container? || kind.Pdf?) && input.parentId != NO_ID {
        var rest := rows.Keys;
        while rest != {}
          invariant rest <= rows.Keys
          invariant forall k | k in rows.Keys - rest :: !Blocks(rows[k], kind, input.parentId)
        {
          var k :| k in rest;
          if Blocks(rows[k], kind, input.parentId) {
            return Err(ChainAdvanced);
          }
          rest := rest - {k};
        }
      }
      rows := rows[id := NewRow(input, id, now)];
      if input.parentId == NO_ID {
        acl := acl + [OwnerGrant(input, id)];
      }
      r := Ok(id);
    }

    method ReplaceContainerBlob(input: ReplaceInput, now: Time) returns (r: Result<(Document, PurgedRef)>)
      requires Valid()
      modifies this
      ensures Valid()
      ensures Abs() == Apply(old(Abs()), Replace(input, now))
      ensures match ReplaceRefusal(old(Abs()), input)
              case Some(e) => r == Err(e)
              case None => r == Ok((rows[input.id], RefOf(old(rows)[input.id])))
    {
      if !ValidClass(input.preservationClass) {
        return Err(InvalidClass);
      }
      if input.id !in rows || rows[input.id].status.Deleted? || rows[input.id].kind.Source? {
        return Err(NotFound);
      }
      var d := rows[input.id];
      if d.contentHash != input.expectedHash {
        return Err(ChainAdvanced);
      }
      var prior := RefOf(d);
      d := ReplacedRow(d, input, now);
      rows := rows[input.id := d];
      r := Ok((d, prior));
    }

    // Drops the absorbed rows one by one, each with its access entries.
    method Absorb(ids: seq<Id>, docs: seq<Document>) returns (absorbed: seq<PurgedRef>)
      requires |docs| == |ids|
      modifies this
      ensures rows == old(rows) - Elements(ids)
      ensures acl == Kept(old(acl), ChainNotIn(Elements(ids)))
      ensures |absorbed| == |ids| && forall i | 0 <= i < |ids| :: absorbed[i] == RefOf(docs[i])
    {
      absorbed := [];
      KeptAll(acl);
      assert Elements(ids[..0]) == {};
      for i := 0 to |ids|
        invariant rows == old(rows) - Elements(ids[..i])
        invariant acl == Kept(old(acl), ChainNotIn(Elements(ids[..i])))
        invariant |absorbed| == i && forall j | 0 <= j < i :: absorbed[j] == RefOf(docs[j])
      {
        absorbed := absorbed + [RefOf(docs[i])];
        rows := rows - {ids[i]};
        KeptTwice(old(acl), Elements(ids[..i]), {ids[i]});
        assert ids[..i + 1] == ids[..i] + [ids[i]];
        assert Elements(ids[..i + 1]) == Elements(ids[..i]) + {ids[i]};
        FilterAcl(ChainNotIn({ids[i]}));
      }
      assert ids[..|ids|] == ids;
    }

    // Checks the sources in order before anything is touched.
    method CollectSources(ids: seq<Id>, owner: string, distinct: bool) returns (fault: Option<Error>, docs: seq<Document>)
      ensures fault == FirstFault(rows, ids, 0, owner, distinct)
      ensures fault.None? ==> |docs| == |ids| && forall i | 0 <= i < |ids| :: ids[i] in rows && docs[i] == rows[ids[i]]
    {
      docs := [];
      for i := 0 to |ids|
        invariant FirstFault(rows, ids, 0, owner, distinct) == FirstFault(rows, ids, i, owner, distinct)
        invariant |docs| == i && forall j | 0 <= j < i :: ids[j] in rows && docs[j] == rows[ids[j]]
      {
        if distinct && ids[i] in ids[..i] {
          return Some(NotBundleable), [];
        }
        fault := AbsorbRefusal(rows, ids[i], owner);
        if fault.Some? {
          return fault, [];
        }
        docs := docs + [rows[ids[i]]];
      }
      fault := None;
    }

    method Bundle(input: BundleInput, id: Id, now: Time) returns (r: Result<seq<PurgedRef>>)
      requires Valid() && id !in rows
      modifies this
      ensures Valid()
      ensures Abs() == Apply(old(Abs()), Action.Bundle(input, id, now))
      ensures match BundleRefusal(old(Abs()), input)
              case Some(e) => r == Err(e)
              case None => r.Ok? && RefsInOrder(r.value, old(rows), input.sourceIds)
    {
      if |input.sourceIds| < 1 {
        return Err(NotBundleable);
      }
      var fault, docs := CollectSources(input.sourceIds, input.owner, true);
      if fault.Some? {
        return Err(fault.value);
      }
      rows := rows[id := BundleRow(input, id, now)];
      acl := acl + [Types.Grant(id, Sub, input.owner, [Read, CoSign])];
      var absorbed := Absorb(input.sourceIds, docs);
      r := Ok(absorbed);
    }

    method Rebundle(input: RebundleInput, now: Time) returns (r: Result<(Document, PurgedRef, seq<PurgedRef>)>)
      requires Valid()
      modifies this
      ensures Valid()
      ensures Abs() == Apply(old(Abs()), Action.Rebundle(input, now))
      ensures match RebundleRefusal(old(Abs()), input)
              case Some(e) => r == Err(e)
              case None =>
                && r.Ok? && input.id in rows && r.value.0 == rows[input.id]
                && r.value.1 == RefOf(old(rows)[input.id])
                && RefsInOrder(r.value.2, old(rows), input.absorbSourceIds)
    {
      if input.id !in rows || rows[input.id].owner != input.owner || Terminal(rows[input.id].status) {
        return Err(NotFound);
      }
      var d := rows[input.id];
      if !d.kind.Container? || !d.status.Received? {
        return Err(NotBundleable);
      }
      if d.legalHold {
        return Err(LegalHold);
      }
      if d.contentHash != input.expectedHash {
        return Err(ChainAdvanced);
      }
      var fault, docs := CollectSources(input.absorbSourceIds, input.owner, false);
      if fault.Some? {
        return Err(fault.value);
      }
      NoFault(rows, input.absorbSourceIds, 0, input.owner, false);
      var prior := RefOf(d);
      d := RebundledRow(d, input, now);
      rows := rows[input.id := d];
      var absorbed := Absorb(input.absorbSourceIds, docs);
      r := Ok((d, prior, absorbed));
    }

    method Grant(input: GrantInput) returns (r: Option<Error>)
      requires Valid()
      modifies this
      ensures Valid()
      ensures Abs() == Apply(old(Abs()), GrantAccess(input))
      ensures r == Refusal(old(Abs()), GrantAccess(input))
    {
      if input.docId !in rows {
        return Some(NotFound);
      }
      var principal := input.principal;
      if input.kind.Serial? {
        principal := NormalizeSerial(principal);
      }
      var rights := input.rights;
      if |rights| == 0 {
        rights := [Read, CoSign];
      }
      var entry := Types.Grant(ChainRootId(rows[input.docId]), input.kind, principal, rights);
      var at := FindEntry(entry);
      UpsertAt(acl, entry, at);
      if at < |acl| {
        acl := acl[at := acl[at].(rights := rights)];
      } else {
        acl := acl + [entry];
      }
      r := None;
    }

    method FindEntry(entry: Types.Grant) returns (at: nat)
      ensures at <= |acl| && (at < |acl| ==> SameEntry(acl[at], entry))
      ensures forall j | 0 <= j < at :: !SameEntry(acl[j], entry)
    {
      for i := 0 to |acl|
        invariant forall j | 0 <= j < i :: !SameEntry(acl[j], entry)
      {
        if SameEntry(acl[i], entry) {
          return i;
        }
      }
      at := |acl|;
    }

    method RemoveAccess(docId: Id, caller: Caller, now: Time) returns (r: Result<seq<PurgedRef>>)
      requires Valid()
      modifies this
      ensures Valid()
      ensures Abs() == Apply(old(Abs()), Action.RemoveAccess(docId, caller, now))
      ensures match RemoveRefusal(old(Abs()), docId, caller)
              case Some(e) => r == Err(e)
              case None => r.Ok? && RefsOf(r.value, old(rows), Released(old(Abs()), Action.RemoveAccess(docId, caller, now)))
    {
      if docId !in rows || !MayRead(State(rows, acl), rows[docId], caller) {
        return Err(NotFound);
      }
      var root := ChainRootId(rows[docId]);
      var held := AnyHeld(root);
      if held {
        return Err(LegalHold);
      }
      DropOwnEntries(root, caller);
      for i := 0 to |acl|
        invariant forall j | 0 <= j < i :: acl[j].chainRoot != root
      {
        if acl[i].chainRoot == root {
          return Ok([]); // others still hold access
        }
      }
      var purged := PurgeChain(root, now);
      r := Ok(purged);
    }

    method AnyHeld(root: Id) returns (held: bool)
      ensures held == ChainHeld(rows, root)
    {
      var rest := rows.Keys;
      while rest != {}
        invariant rest <= rows.Keys
        invariant forall k | k in rows.Keys - rest :: !(InChain(rows[k], root) && rows[k].legalHold)
      {
        var k :| k in rest;
        if InChain(rows[k], root) && rows[k].legalHold {
          return true;
        }
        rest := rest - {k};
      }
      held := false;
    }

    method DropOwnEntries(root: Id, caller: Caller)
      modifies this`acl
      ensures acl == Kept(old(acl), NotHeldBy(root, caller))
    {
      var kept := [];
      for i := 0 to |acl|
        invariant kept == Kept(acl[..i], NotHeldBy(root, caller))
      {
        assert acl[..i + 1][..i] == acl[..i];
        if !HeldBy(acl[i], root, caller) {
          kept := kept + [acl[i]];
        }
      }
      assert acl[..|acl|] == acl;
      acl := kept;
    }

    // The last access is gone: every row of the chain gives up its bytes.
    method PurgeChain(root: Id, now: Time) returns (purged: seq<PurgedRef>)
      requires Valid()
      modifies this`rows
      ensures Valid()
      ensures rows == PurgeRows(old(rows), Undeleted(old(rows), root), now)
      ensures RefsOf(purged, old(rows), Undeleted(old(rows), root))
    {
      purged := [];
      ghost var was, done := rows, {};
      var rest := rows.Keys;
      assert PurgeRows(rows, {}, now) == rows;
      while rest != {}
        invariant rest <= was.Keys
        invariant done !! rest && Splits(was.Keys - rest, done, Undeleted(was, root))
        invariant rows == PurgeRows(was, done, now)
        invariant RefsOf(purged, was, done)
      {
        var k :| k in rest;
        var d := rows[k];
        assert d == was[k];
        rest := rest - {k};
        if InChain(d, root) && !d.status.Deleted? {
          RefsOfGrows(purged, was, done, k);
          PurgeOneMore(was, done, k, now);
          purged := purged + [RefOf(d)];
          rows := rows[k := PurgedRow(d, now)];
          done := done + {k};
        }
      }
      assert done == Undeleted(was, root);
    }

    /** Whatever order the rows are met in, a sweep takes only rows that are due, and stops
        short of taking them all only when the batch is full. */
    method SweepRetention(cutoff: Time, limit: int, clock: Time) returns (purged: seq<PurgedRef>)
      requires Valid()
      modifies this
      ensures Valid()
      ensures Abs() == Apply(old(Abs()), Action.SweepRetention(PurgedIds(purged), cutoff, clock))
      ensures PurgedIds(purged) <= Eligible(old(rows), cutoff)
      ensures RefsOf(purged, old(rows), PurgedIds(purged))
      ensures 0 < limit ==> |purged| <= limit
      ensures PurgedIds(purged) == Eligible(old(rows), cutoff) || |purged| == limit > 0
    {
      purged := [];
      ghost var was, done := rows, {};
      var rest := rows.Keys;
      assert ExpireRows(rows, {}, clock) == rows;
      while rest != {}
        invariant rest <= was.Keys
        invariant done !! rest && Splits(was.Keys - rest, done, Eligible(was, cutoff))
        invariant rows == ExpireRows(was, done, clock) && acl == old(acl)
        invariant RefsOf(purged, was, done)
        invariant 0 < limit ==> |purged| <= limit
      {
        if limit > 0 && |purged| >= limit {
          break;
        }
        var k :| k in rest;
        var d := rows[k];
        assert d == was[k];
        rest := rest - {k};
        if !(d.legalHold || d.status.Deleted? || d.status.Expired?) && d.retentionUntil.Some? {
          if d.retentionUntil.value < cutoff {
            RefsOfGrows(purged, was, done, k);
            ExpireOneMore(was, done, k, clock);
            purged := purged + [RefOf(d)];
            rows := rows[k := ExpiredRow(d, clock)];
            done := done + {k};
          }
        }
      }
      assert State(rows, acl) == old(Abs()).(rows := ExpireRows(was, PurgedIds(purged), clock));
    }

    method SweepHistory(before: Time, limit: int) returns (removed: nat, ghost taken: set<Id>)
      requires Valid()
      modifies this
      ensures Valid()
      ensures Abs() == Apply(old(Abs()), Action.SweepHistory(taken, before))
      ensures taken <= Erasable(old(rows), before) && removed == |taken|
      ensures removed <= (if limit <= 0 then 500 else limit)
      ensures taken == Erasable(old(rows), before) || removed == (if limit <= 0 then 500 else limit)
    {
      var cap := if limit <= 0 then 500 else limit;
      removed := 0;
      taken := {};
      ghost var was := rows;
      var rest := rows.Keys;
      assert rows == rows - {};
      while rest != {}
        invariant rest <= was.Keys
        invariant taken !! rest && Splits(was.Keys - rest, taken, Erasable(was, before))
        invariant rows == was - taken && acl == old(acl)
        invariant removed == |taken| <= cap
      {
        if removed >= cap {
          break;
        }
        var k :| k in rest;
        if Stale(rows[k], before) {
          rows := rows - {k};
          removed := removed + 1;
          taken := taken + {k};
        }
        rest := rest - {k};
      }
      var alive := LiveRoots();
      FilterAcl(ChainIn(alive));
      assert State(rows, acl) == HistorySwept(old(Abs()), taken);
    }

    // The chains that still have a row.
    method LiveRoots() returns (alive: set<Id>)
      ensures alive == Roots(rows)
    {
      alive := {};
      var rest := rows.Keys;
      while rest != {}
        invariant rest <= rows.Keys
        invariant alive == set k | k in rows.Keys - rest :: ChainRootId(rows[k])
      {
        var k :| k in rest;
        alive := alive + {ChainRootId(rows[k])};
        rest := rest - {k};
      }
    }

    method DeleteHistoryChain(owner: string, root: Id) returns (r: Option<Error>)
      requires Valid()
      modifies this
      ensures Valid()
      ensures Abs() == Apply(old(Abs()), Action.DeleteHistoryChain(owner, root))
      ensures r == HistoryRefusal(old(Abs()), owner, root)
    {
      var rest := rows.Keys;
      while rest != {}
        invariant rest <= rows.Keys
        invariant forall k | k in rows.Keys - rest ::
                    !(ChainRootId(rows[k]) == root && (!Terminal(rows[k].status) || rows[k].legalHold))
      {
        var k :| k in rest;
        if ChainRootId(rows[k]) == root && (!Terminal(rows[k].status) || rows[k].legalHold) {
          return Some(ChainLive);
        }
        rest := rest - {k};
      }
      var removed := {};
      rest := rows.Keys;
      assert rows == rows - {};
      while rest != {}
        invariant rest <= rows.Keys && removed !! rest
        invariant removed == set k | k in old(rows).Keys - rest && k in OwnedChain(old(rows), owner, root)
        invariant rows == old(rows) - removed && acl == old(acl)
      {
        var k :| k in rest;
        if ChainRootId(rows[k]) == root && rows[k].owner == owner {
          rows := rows - {k};
          removed := removed + {k};
        }
        rest := rest - {k};
      }
      assert removed == OwnedChain(old(rows), owner, root);
      if removed == {} {
        assert rows == old(rows);
        return Some(NotFound);
      }
      FilterAcl(ChainNotIn({root}));
      r := None;
    }

    method SetResultFreeze(docId: Id, frozen: bool, now: Time) returns (r: Option<Error>)
      requires Valid()
      modifies this
      ensures Valid()
      ensures Abs() == Apply(old(Abs()), Action.SetResultFreeze(docId, frozen, now))
      ensures r == FreezeRefusal(old(Abs()), docId)
    {
      if docId !in rows || ChainRootId(rows[docId]) !in rows {
        return Some(NotFound);
      }
      var root := ChainRootId(rows[docId]);
      rows := rows[root := rows[root].(resultFrozen := frozen, updatedAt := now)];
      r := None;
    }

    method ExtendRetention(docId: Id, owner: string, until: Time, now: Time) returns (r: Option<Error>)
      requires Valid()
      modifies this
      ensures Valid()
      ensures Abs() == Apply(old(Abs()), Action.ExtendRetention(docId, owner, until, now))
      ensures r == Refusal(old(Abs()), Action.ExtendRetention(docId, owner, until, now))
    {
      if docId !in rows || rows[docId].owner != owner {
        return Some(NotFound);
      }
      rows := rows[docId := ExtendedRow(rows[docId], until, now)];
      r := None;
    }

    // ---- Reads ---------------------------------------------------------------------------

    method Get(id: Id, caller: Caller) returns (r: Result<Document>)
      ensures r == Reads.Get(Abs(), id, caller)
    {
      if id !in rows || !MayRead(State(rows, acl), rows[id], caller) {
        return Err(NotFound);
      }
      var d := rows[id];
      if ChainRootId(d) in rows {
        d := d.(resultFrozen := rows[ChainRootId(d)].resultFrozen);
      }
      r := Ok(d);
    }

    method GetContainerByParent(parent: Id, caller: Caller) returns (r: Result<Document>)
      requires Valid()
      ensures Answers(Abs(), parent, caller, ContainersOf(rows, parent), r)
    {
      if parent == NO_ID || !Allows(acl, parent, caller, Read) {
        return Err(NotFound);
      }
      var rest := rows.Keys;
      while rest != {}
        invariant rest <= rows.Keys
        invariant forall k | k in rows.Keys - rest :: k !in ContainersOf(rows, parent)
      {
        var k :| k in rest;
        var d := rows[k];
        if d.kind.Container? && d.parentId == parent && !d.status.Deleted? {
          assert k in ContainersOf(rows, parent);
          return Ok(d);
        }
        rest := rest - {k};
      }
      assert ContainersOf(rows, parent) == {};
      r := Err(NotFound);
    }

    method GetLatestSignedPdfByChain(parent: Id, caller: Caller) returns (r: Result<Document>)
      requires Valid()
      ensures Answers(Abs(), parent, caller, SignedPdfsOf(rows, parent), r)
      ensures r.Ok? ==> IsHead(rows, SignedPdfsOf(rows, parent), r.value.id)
    {
      if parent == NO_ID || !Allows(acl, parent, caller, Read) {
        return Err(NotFound);
      }
      var latest: Option<Document> := None;
      ghost var met := {};
      var rest := rows.Keys;
      while rest != {}
        invariant rest <= rows.Keys
        invariant met == SignedPdfsOf(rows, parent) - rest
        invariant if met == {} then latest.None? else latest.Some? && LeadsAs(rows, met, latest.value)
      {
        var k :| k in rest;
        var d := rows[k];
        if d.kind.Pdf? && (d.parentId == parent || d.id == parent) && !d.status.Deleted? {
          if latest.Some? {
            HeadOfOneMore(rows, met, latest.value.id, k);
          }
          if latest.None? || Less(latest.value.id, d.id) {
            latest := Some(d);
          }
          met := met + {k};
        }
        rest := rest - {k};
      }
      assert met == SignedPdfsOf(rows, parent);
      r := if latest.None? then Err(NotFound) else Ok(latest.value);
    }

    method List(caller: Caller, limit: int, after: Id) returns (docs: seq<Document>)
      requires Valid()
      ensures MapKeys(docs, DocKey) == Page(IdKeys(ReadableIds(Abs(), caller)), AfterId(after), CapOf(limit, 100))
      ensures forall d | d in docs :: d.id in rows && d == rows[d.id]
    {
      var out := CollectReadable(caller, after);
      docs := SortAndCut(out, DocKey, CapOf(limit, 100));
    }

    method CollectReadable(caller: Caller, after: Id) returns (out: seq<Document>)
      requires Valid()
      ensures KeysOf(out, DocKey) == Below(IdKeys(ReadableIds(Abs(), caller)), AfterId(after))
      ensures forall d | d in out :: d.id in rows && d == rows[d.id]
      ensures forall i, j | 0 <= i < j < |out| :: DocKey(out[i]) != DocKey(out[j])
    {
      out := [];
      ghost var wanted := set k | k in ReadableIds(Abs(), caller) && (after == NO_ID || Less(k, after));
      var rest := rows.Keys;
      while rest != {}
        invariant rest <= rows.Keys
        invariant forall d | d in out :: d.id in wanted - rest && d == rows[d.id]
        invariant forall i, j | 0 <= i < j < |out| :: out[i].id != out[j].id
        invariant forall k | k in wanted && k !in rest :: rows[k] in out
      {
        var k :| k in rest;
        var d := rows[k];
        rest := rest - {k};
        if !d.status.Deleted? && MayRead(State(rows, acl), d, caller) && (after == NO_ID || Less(d.id, after)) {
          out := out + [d];
        }
      }
      ListedDocKeys(Abs(), caller, after, wanted, out);
    }

    // One live head per chain the caller may read, whatever order the rows come in.
    method ListedHeads(caller: Caller) returns (heads: map<Id, Document>)
      requires Valid()
      ensures forall root :: root in heads <==> Allows(acl, root, caller, Read) && LiveRows(rows, root) != {}
      ensures forall root | root in heads :: heads[root] == LiveHead(rows, root)
    {
      heads := map[];
      var rest := rows.Keys;
      while rest != {}
        invariant rest <= rows.Keys
        invariant forall root :: root in heads <==> Allows(acl, root, caller, Read) && LiveRows(rows, root) - rest != {}
        invariant forall root | root in heads :: LeadsAs(rows, LiveRows(rows, root) - rest, heads[root])
      {
        var k :| k in rest;
        var d := rows[k];
        var root := ChainRootId(d);
        ghost var met := LiveRows(rows, root) - rest;
        forall r | r != root || d.status.Deleted?
          ensures LiveRows(rows, r) - (rest - {k}) == LiveRows(rows, r) - rest
        {}
        rest := rest - {k};
        if !d.status.Deleted? {
          assert LiveRows(rows, root) - rest == met + {k};
          if Allows(acl, root, caller, Read) {
            if root in heads {
              HeadOfOneMore(rows, met, heads[root].id, k);
            }
            if root !in heads || HeadOutranks(d, heads[root]) {
              heads := heads[root := d];
            }
          }
        }
      }
      forall root | root in heads ensures heads[root] == LiveHead(rows, root) {
        assert LiveRows(rows, root) - rest == LiveRows(rows, root);
        HeadUnique(rows, LiveRows(rows, root), heads[root].id, HeadOf(rows, LiveRows(rows, root)));
      }
      forall root ensures LiveRows(rows, root) - rest == LiveRows(rows, root) {}
    }

    method ListChains(caller: Caller, limit: int, cursor: Cursor, includeExpired: bool) returns (chains: seq<Chain>)
      requires Valid()
      ensures MapKeys(chains, ChainKey) ==
                Take(Descending(LeftBy(ListedKeys(Abs(), caller, includeExpired), cursor)), CapOf(limit, 100))
      ensures forall c | c in chains ::
                LiveRows(rows, c.chainRootId) != {} && c == ListedChain(Abs(), c.chainRootId)
    {
      var heads := ListedHeads(caller);
      var out, ids := CollectChains(heads, cursor, includeExpired);
      ListedChainKeys(Abs(), caller, cursor, includeExpired, heads, out, ids);
      chains := SortAndCut(out, ChainKey, CapOf(limit, 100));
    }

    method CollectChains(heads: map<Id, Document>, cursor: Cursor, includeExpired: bool)
      returns (out: seq<Chain>, ghost ids: seq<Id>)
      ensures Enumerates(ids, set root | root in heads && Shows(heads[root], root, cursor, includeExpired))
      ensures |out| == |ids| && forall i | 0 <= i < |ids| ::
                ids[i] in heads && out[i] == Project(rows, ids[i], heads[ids[i]], [])
    {
      out, ids := [], [];
      ghost var wanted := set root | root in heads && Shows(heads[root], root, cursor, includeExpired);
      var rest := heads.Keys;
      while rest != {}
        invariant rest <= heads.Keys
        invariant Enumerates(ids, wanted - rest)
        invariant |out| == |ids| && forall i | 0 <= i < |ids| ::
                    ids[i] in heads && out[i] == Project(rows, ids[i], heads[ids[i]], [])
      {
        var root :| root in rest;
        var h := heads[root];
        if (includeExpired || !h.status.Expired?) && cursor.Leaves(Key(h.updatedAt, root)) {
          out := out + [Project(rows, root, h, [])];
          EnumeratesOneMore(ids, wanted - rest, root);
          ids := ids + [root];
          assert wanted - (rest - {root}) == wanted - rest + {root};
        } else {
          assert wanted - (rest - {root}) == wanted - rest;
        }
        rest := rest - {root};
      }
      assert wanted - rest == wanted;
    }

    method GetChain(caller: Caller, id: Id) returns (r: Result<Chain>)
      requires Valid()
      ensures r == Reads.GetChain(Abs(), caller, id)
    {
      if id !in rows {
        return Err(NotFound);
      }
      var root := ChainRootId(rows[id]);
      if !Allows(acl, root, caller, Read) {
        return Err(NotFound);
      }
      var head: Option<Document> := None;
      ghost var met := {};
      var rest := rows.Keys;
      while rest != {}
        invariant rest <= rows.Keys
        invariant met == LiveRows(rows, root) - rest
        invariant if met == {} then head.None? else head.Some? && LeadsAs(rows, met, head.value)
      {
        var k :| k in rest;
        var d := rows[k];
        if ChainRootId(d) == root && !d.status.Deleted? {
          if head.Some? {
            HeadOfOneMore(rows, met, head.value.id, k);
          }
          if head.None? || HeadOutranks(d, head.value) {
            head := Some(d);
          }
          met := met + {k};
        }
        rest := rest - {k};
      }
      assert met == LiveRows(rows, root);
      if head.None? {
        return Err(NotFound);
      }
      HeadUnique(rows, met, head.value.id, HeadOf(rows, met));
      r := Ok(Project(rows, root, head.value, head.value.innerFiles));
    }

    method ListHistory(owner: string, limit: int, after: Id) returns (history: seq<HistoryChain>)
      requires Valid()
      ensures MapKeys(history, HistoryKey) == Page(IdKeys(HistoryRoots(rows, owner)), AfterId(after), CapOf(limit, 50))
      ensures forall c | c in history ::
                OwnedTerminal(rows, owner, c.chainRootId) != {} && c == HistoryOf(rows, owner, c.chainRootId)
    {
      var heads := HistoryHeads(owner, after);
      var out, ids := CollectHistory(heads);
      ListedHistoryKeys(HistoryRoots(rows, owner), after, heads.Keys, out, ids);
      forall c | c in out
        ensures OwnedTerminal(rows, owner, c.chainRootId) != {} && c == HistoryOf(rows, owner, c.chainRootId)
      {
        var i :| 0 <= i < |out| && out[i] == c;
        assert ids[i] in HistoryRoots(rows, owner);
      }
      history := SortAndCut(out, HistoryKey, CapOf(limit, 50));
    }

    method CollectHistory(heads: map<Id, Document>) returns (out: seq<HistoryChain>, ghost ids: seq<Id>)
      ensures Enumerates(ids, heads.Keys)
      ensures |out| == |ids| && forall i | 0 <= i < |ids| ::
                ids[i] in heads && out[i] == ProjectHistory(rows, ids[i], heads[ids[i]])
    {
      out, ids := [], [];
      var rest := heads.Keys;
      while rest != {}
        invariant rest <= heads.Keys
        invariant Enumerates(ids, heads.Keys - rest)
        invariant |out| == |ids| && forall i | 0 <= i < |ids| ::
                    ids[i] in heads && out[i] == ProjectHistory(rows, ids[i], heads[ids[i]])
      {
        var root :| root in rest;
        out := out + [ProjectHistory(rows, root, heads[root])];
        EnumeratesOneMore(ids, heads.Keys - rest, root);
        ids := ids + [root];
        assert heads.Keys - (rest - {root}) == heads.Keys - rest + {root};
        rest := rest - {root};
      }
      assert heads.Keys - rest == heads.Keys;
    }

    // The terminal head of each of the owner's chains that has no live row left.
    method HistoryHeads(owner: string, after: Id) returns (heads: map<Id, Document>)
      requires Valid()
      ensures forall root :: root in heads <==>
                root in HistoryRoots(rows, owner) && (after == NO_ID || Less(root, after))
      ensures forall root | root in heads ::
                heads[root] == rows[HeadOf(rows, OwnedTerminal(rows, owner, root))]
    {
      heads := map[];
      var rest := rows.Keys;
      while rest != {}
        invariant rest <= rows.Keys
        invariant forall root :: root in heads <==>
                    && OwnedTerminal(rows, owner, root) - rest != {} && TerminalChain(rows, root)
                    && (after == NO_ID || Less(root, after))
        invariant forall root | root in heads :: LeadsAs(rows, OwnedTerminal(rows, owner, root) - rest, heads[root])
      {
        var k :| k in rest;
        var d := rows[k];
        var root := ChainRootId(d);
        ghost var met := OwnedTerminal(rows, owner, root) - rest;
        var counts := d.owner == owner && Terminal(d.status);
        forall r | r != root || !counts
          ensures OwnedTerminal(rows, owner, r) - (rest - {k}) == OwnedTerminal(rows, owner, r) - rest
        {}
        rest := rest - {k};
        if counts {
          assert OwnedTerminal(rows, owner, root) - rest == met + {k};
          if TerminalChain(rows, root) && (after == NO_ID || Less(root, after)) {
            if root in heads {
              HeadOfOneMore(rows, met, heads[root].id, k);
            }
            if root !in heads || HeadOutranks(d, heads[root]) {
              heads := heads[root := d];
            }
          }
        }
      }
      forall root ensures OwnedTerminal(rows, owner, root) - rest == OwnedTerminal(rows, owner, root) {}
      HistoryHeadsFound(rows, owner, heads);
    }

    method ChainRetention(id: Id) returns (r: Result<(Time, nat)>)
      requires Valid()
      ensures if id !in rows then r == Err(NotFound)
              else
                && r.Ok? && r.value.1 == |Stored(rows, ChainRootId(rows[id]))|
                && IsLatest(rows, Stored(rows, ChainRootId(rows[id])), r.value.0)
    {
      if id !in rows {
        return Err(NotFound);
      }
      var until, live := LatestStored(ChainRootId(rows[id]));
      r := Ok((until, live));
    }

    method LatestStored(root: Id) returns (until: Time, live: nat)
      ensures live == |Stored(rows, root)| && IsLatest(rows, Stored(rows, root), until)
    {
      until, live := ZERO_TIME, 0;
      ghost var met := {};
      var rest := rows.Keys;
      while rest != {}
        invariant rest <= rows.Keys && met !! rest && met <= rows.Keys
        invariant Splits(rows.Keys - rest, met, Stored(rows, root))
        invariant live == |met| && IsLatest(rows, met, until)
      {
        var k :| k in rest;
        var d := rows[k];
        rest := rest - {k};
        if ChainRootId(d) == root && d.storageRef != NO_ID {
          LatestOfOneMore(rows, met, until, k);
          live := live + 1;
          met := met + {k};
          if d.retentionUntil.Some? && until < d.retentionUntil.value {
            until := d.retentionUntil.value;
          }
        }
      }
      assert met == Stored(rows, root);
    }
  }

  lemma HistoryHeadsFound(rows: map<Id, Document>, owner: string, heads: map<Id, Document>)
    requires Keyed(rows)
    requires forall root | root in heads :: LeadsAs(rows, OwnedTerminal(rows, owner, root), heads[root])
    ensures forall root | root in heads ::
              OwnedTerminal(rows, owner, root) != {} && heads[root] == rows[HeadOf(rows, OwnedTerminal(rows, owner, root))]
    ensures forall root | OwnedTerminal(rows, owner, root) != {} :: root in Roots(rows)
  {
    forall root | root in heads
      ensures OwnedTerminal(rows, owner, root) != {} && heads[root] == rows[HeadOf(rows, OwnedTerminal(rows, owner, root))]
    {
      var all := OwnedTerminal(rows, owner, root);
      assert heads[root].id in all;
      HeadUnique(rows, all, heads[root].id, HeadOf(rows, all));
    }
    forall root | OwnedTerminal(rows, owner, root) != {} ensures root in Roots(rows) {
      var x :| x in OwnedTerminal(rows, owner, root);
    }
  }

  // The ids list the wanted set, each once.
  ghost predicate Enumerates(ids: seq<Id>, wanted: set<Id>) {
    && Elements(ids) == wanted
    && forall i, j | 0 <= i < j < |ids| :: ids[i] != ids[j]
  }

  lemma EnumeratesOneMore(ids: seq<Id>, wanted: set<Id>, id: Id)
    requires Enumerates(ids, wanted) && id !in wanted
    ensures Enumerates(ids + [id], wanted + {id})
  {
    assert forall i | 0 <= i < |ids| :: ids[i] in Elements(ids);
    assert forall x :: x in ids + [id] <==> x in ids || x == id;
  }

  lemma ListedDocKeys(s: State, caller: Caller, after: Id, wanted: set<Id>, out: seq<Document>)
    requires Keyed(s.rows)
    requires wanted == set k | k in ReadableIds(s, caller) && (after == NO_ID || Less(k, after))
    requires forall d | d in out :: d.id in wanted && d == s.rows[d.id]
    requires forall k | k in wanted :: s.rows[k] in out
    ensures KeysOf(out, DocKey) == Below(IdKeys(ReadableIds(s, caller)), AfterId(after))
  {
    forall k | k in Below(IdKeys(ReadableIds(s, caller)), AfterId(after)) ensures k in KeysOf(out, DocKey) {
      assert s.rows[k.id] in out && DocKey(s.rows[k.id]) == k;
    }
  }

  predicate Shows(h: Document, root: Id, cursor: Cursor, includeExpired: bool) {
    (includeExpired || !h.status.Expired?) && cursor.Leaves(Key(h.updatedAt, root))
  }

  lemma ListedChainKeys(
      s: State, caller: Caller, cursor: Cursor, includeExpired: bool,
      heads: map<Id, Document>, out: seq<Chain>, ids: seq<Id>)
    requires Keyed(s.rows)
    requires forall root :: root in heads <==> Allows(s.acl, root, caller, Read) && LiveRows(s.rows, root) != {}
    requires forall root | root in heads :: heads[root] == LiveHead(s.rows, root)
    requires Enumerates(ids, set root | root in heads && Shows(heads[root], root, cursor, includeExpired))
    requires |out| == |ids| && forall i | 0 <= i < |ids| ::
               ids[i] in heads && out[i] == Project(s.rows, ids[i], heads[ids[i]], [])
    ensures KeysOf(out, ChainKey) == LeftBy(ListedKeys(s, caller, includeExpired), cursor)
    ensures forall c | c in out :: LiveRows(s.rows, c.chainRootId) != {} && c == ListedChain(s, c.chainRootId)
    ensures forall i, j | 0 <= i < j < |out| :: ChainKey(out[i]) != ChainKey(out[j])
  {
    var wanted := LeftBy(ListedKeys(s, caller, includeExpired), cursor);
    forall k | k in wanted ensures k in KeysOf(out, ChainKey) {
      assert k.id in Elements(ids);
      var i :| 0 <= i < |ids| && ids[i] == k.id;
      assert out[i] in out && ChainKey(out[i]) == k;
    }
    forall k | k in KeysOf(out, ChainKey) ensures k in wanted {
      var i :| 0 <= i < |out| && ChainKey(out[i]) == k;
      assert ids[i] in Elements(ids);
      var x :| x in LiveRows(s.rows, ids[i]);
      assert ids[i] in ListedRoots(s, caller, includeExpired);
    }
  }

  lemma ListedHistoryKeys(wanted: set<Id>, after: Id, left: set<Id>, out: seq<HistoryChain>, ids: seq<Id>)
    requires Enumerates(ids, left) && left == set root | root in wanted && (after == NO_ID || Less(root, after))
    requires |out| == |ids| && forall i | 0 <= i < |ids| :: out[i].chainRootId == ids[i]
    ensures KeysOf(out, HistoryKey) == Below(IdKeys(wanted), AfterId(after))
    ensures forall i, j | 0 <= i < j < |out| :: HistoryKey(out[i]) != HistoryKey(out[j])
  {
    forall k | k in Below(IdKeys(wanted), AfterId(after)) ensures k in KeysOf(out, HistoryKey) {
      assert k.id in Elements(ids);
      var i :| 0 <= i < |ids| && ids[i] == k.id;
      assert out[i] in out && HistoryKey(out[i]) == k;
    }
    forall k | k in KeysOf(out, HistoryKey) ensures k in Below(IdKeys(wanted), AfterId(after)) {
      var i :| 0 <= i < |out| && HistoryKey(out[i]) == k;
      assert ids[i] in Elements(ids);
    }
  }

  ghost predicate LeadsAs(rows: map<Id, Document>, among: set<Id>, d: Document)
    requires among <= rows.Keys
  {
    d.id in among && d == rows[d.id] && IsHead(rows, among, d.id)
  }

  ghost predicate RefsInOrder(refs: seq<PurgedRef>, rows: map<Id, Document>, ids: seq<Id>) {
    |refs| == |ids| && forall i | 0 <= i < |ids| :: ids[i] in rows && refs[i] == RefOf(rows[ids[i]])
  }

  lemma {:induction false} UpsertAt(acl: seq<Grant>, g: Grant, i: nat)
    requires i <= |acl|
    requires forall j | 0 <= j < i :: !SameEntry(acl[j], g)
    requires i < |acl| ==> SameEntry(acl[i], g)
    ensures Upsert(acl, g) == if i < |acl| then acl[i := acl[i].(rights := g.rights)] else acl + [g]
  {
    if i > 0 {
      UpsertAt(acl[1..], g, i - 1);
    }
  }
}
