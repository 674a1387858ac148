/** The retention task: one pass drains what is due, batch by batch, then erases old records. */
module Retention {
  import opened Types
  import opened Metadata
  import Reads
  import opened StoreRuns
  import opened Service

  // The rows after a pass: those of expired are now expired, at some instant of the pass or
  // later, those of gone are erased, and the rest are untouched.
  ghost predicate AfterPass(was: map<Id, Document>, rows: map<Id, Document>, expired: set<Id>, gone: set<Id>, now: Time) {
    && rows.Keys == was.Keys - gone
    && forall id | id in rows ::
         if id in expired then rows[id] == ExpiredRow(was[id], rows[id].updatedAt) && now <= rows[id].updatedAt
         else rows[id] == was[id]
  }

  lemma ExpiredMore(
      was: map<Id, Document>, mid: map<Id, Document>, rows: map<Id, Document>, expired: set<Id>, taken: set<Id>,
      now: Time, clock: Time)
    requires AfterPass(was, mid, expired, {}, now) && now <= clock && rows == ExpireRows(mid, taken, clock)
    requires expired <= Eligible(was, now) && taken <= Eligible(mid, now)
    ensures AfterPass(was, rows, expired + taken, {}, now)
    ensures expired + taken <= Eligible(was, now)
    ensures |expired| + |taken| == |expired + taken| <= |Eligible(was, now)|
  {
    assert forall id | id in taken :: mid[id] == was[id] && id !in expired;
    assert expired !! taken;
    assert |Eligible(was, now)| == |expired + taken| + |Eligible(was, now) - (expired + taken)|;
  }

  lemma FreedMore(
      was: map<Id, Document>, mid: map<Id, Document>, expired: set<Id>, taken: set<Id>, now: Time, objs: map<Id, Bytes>)
    requires AfterPass(was, mid, expired, {}, now) && taken <= Eligible(mid, now)
    ensures (objs - RefsAmong(was, expired)) - RefsAmong(mid, taken) == objs - RefsAmong(was, expired + taken)
  {
    assert forall id | id in taken :: mid[id] == was[id];
    assert RefsAmong(was, expired) + RefsAmong(mid, taken) == RefsAmong(was, expired + taken);
  }

  lemma LessIsDue(was: map<Id, Document>, rows: map<Id, Document>, expired: set<Id>, now: Time)
    requires AfterPass(was, rows, expired, {}, now) && expired <= Eligible(was, now)
    ensures Eligible(rows, now) == Eligible(was, now) - expired
    ensures |Eligible(rows, now)| == |Eligible(was, now)| - |expired|
  {
    assert Eligible(rows, now) == Eligible(was, now) - expired;
  }

  lemma EraseMore(was: map<Id, Document>, gone: set<Id>, taken: set<Id>, before: Time)
    requires gone <= Erasable(was, before) && taken <= Erasable(was - gone, before)
    ensures gone !! taken && gone + taken <= Erasable(was, before)
    ensures (was - gone) - taken == was - (gone + taken)
    ensures Erasable(was - (gone + taken), before) == Erasable(was - gone, before) - taken
    ensures Roots(was - (gone + taken)) <= Roots(was - gone)
  {
    forall root | root in Roots(was - (gone + taken)) ensures root in Roots(was - gone) {
      var id :| id in was - (gone + taken) && ChainRootId(was[id]) == root;
      assert id in was - gone;
    }
  }

  // Filtering by fewer chains makes the wider filter before it redundant.
  lemma {:induction false} KeptNarrower(acl: seq<Grant>, wide: set<Id>, narrow: set<Id>)
    requires narrow <= wide
    ensures Kept(Kept(acl, ChainIn(wide)), ChainIn(narrow)) == Kept(acl, ChainIn(narrow))
  {
    if acl != [] {
      var init, last := acl[..|acl| - 1], acl[|acl| - 1];
      KeptNarrower(init, wide, narrow);
      if last.chainRoot in wide {
        assert Kept(acl, ChainIn(wide))[..|Kept(acl, ChainIn(wide))| - 1] == Kept(init, ChainIn(wide));
      }
    }
  }

  // Rows expired in this pass carry an instant of this pass: they are not old history yet.
  lemma OwnExpiryIsNotHistory(was: map<Id, Document>, rows: map<Id, Document>, now: Time, keep: int)
    requires AfterPass(was, rows, Eligible(was, now), {}, now) && keep > 0
    ensures Erasable(rows, now - keep) == Erasable(was, now - keep)
    ensures Erasable(rows, now - keep) !! Eligible(was, now)
  {}

  class RetentionTask {
    const service: DocumentService
    const batch: int
    const historyKeep: int

    constructor (service: DocumentService, batch: int, historyKeep: int)
      ensures this.service == service && this.batch == batch && this.historyKeep == historyKeep
    {
      this.service, this.batch, this.historyKeep := service, batch, historyKeep;
    }

    // One batch of the sweep, and what it did to rows and objects.
    method SweepBatch(now: Time, limit: nat) returns (n: nat, ghost taken: set<Id>, clock: Time)
      requires service.Valid() && limit > 0
      modifies service.store, service.blob
      ensures service.Valid() && now <= clock
      ensures service.store.rows == ExpireRows(old(service.store.rows), taken, clock)
      ensures service.store.Abs().acl == old(service.store.Abs().acl) && service.issued == old(service.issued)
      ensures service.blob.objs == old(service.blob.objs) - RefsAmong(old(service.store.rows), taken)
      ensures taken <= Eligible(old(service.store.rows), now) && n == |taken|
      ensures taken == Eligible(old(service.store.rows), now) || n == limit
    {
      clock :| now <= clock;
      n, taken := service.Sweep(now, limit, clock);
    }

    // One more batch after those that expired the given rows.
    method SweepMore(now: Time, limit: nat, ghost was: map<Id, Document>, ghost objs: map<Id, Bytes>, ghost expired: set<Id>)
      returns (n: nat, ghost taken: set<Id>)
      requires service.Valid() && limit > 0
      requires AfterPass(was, service.store.rows, expired, {}, now) && expired <= Eligible(was, now)
      requires service.blob.objs == objs - RefsAmong(was, expired)
      modifies service.store, service.blob
      ensures service.Valid()
      ensures service.store.Abs().acl == old(service.store.Abs().acl) && service.issued == old(service.issued)
      ensures AfterPass(was, service.store.rows, expired + taken, {}, now)
      ensures service.blob.objs == objs - RefsAmong(was, expired + taken)
      ensures expired + taken <= Eligible(was, now) && |expired| + n == |expired + taken| <= |Eligible(was, now)|
      ensures expired + taken == Eligible(was, now) || n == limit
    {
      ghost var mid := service.store.rows;
      var clock;
      n, taken, clock := SweepBatch(now, limit);
      LessIsDue(was, mid, expired, now);
      ExpiredMore(was, mid, service.store.rows, expired, taken, now, clock);
      FreedMore(was, mid, expired, taken, now, objs);
    }

    method EraseBatch(before: Time, limit: nat) returns (n: nat, ghost taken: set<Id>)
      requires service.Valid() && limit > 0
      modifies service.store
      ensures service.Valid() && service.blob.objs == old(service.blob.objs)
      ensures service.store.rows == old(service.store.rows) - taken
      ensures service.store.Abs().acl == Kept(old(service.store.Abs().acl), ChainIn(Roots(service.store.rows)))
      ensures service.issued == old(service.issued)
      ensures taken <= Erasable(old(service.store.rows), before) && n == |taken|
      ensures taken == Erasable(old(service.store.rows), before) || n == limit
    {
      n, taken := service.SweepHistory(before, limit);
    }

    /** Sweeps until a batch comes back short. Every full batch shrinks what is due, so the
        loop ends, and it ends with nothing due and exactly the rows due at the start expired. */
    method Drain(now: Time, limit: nat) returns (total: nat, ghost expired: set<Id>)
      requires service.Valid() && limit > 0
      modifies service.store, service.blob
      ensures service.Valid() && service.store.Abs().acl == old(service.store.Abs().acl)
      ensures service.issued == old(service.issued)
      ensures expired == Eligible(old(service.store.rows), now) && total == |expired|
      ensures AfterPass(old(service.store.rows), service.store.rows, expired, {}, now)
      ensures Eligible(service.store.rows, now) == {}
      ensures service.blob.objs == old(service.blob.objs) - RefsAmong(old(service.store.rows), expired)
    {
      total, expired := 0, {};
      ghost var was := service.store.rows;
      while true
        invariant service.Valid() && service.store.Abs().acl == old(service.store.Abs().acl)
        invariant service.issued == old(service.issued)
        invariant expired <= Eligible(was, now) && total == |expired| <= |Eligible(was, now)|
        invariant AfterPass(was, service.store.rows, expired, {}, now)
        invariant service.blob.objs == old(service.blob.objs) - RefsAmong(was, expired)
        decreases |Eligible(was, now)| - |expired|
      {
        var n, taken := SweepMore(now, limit, was, old(service.blob.objs), expired);
        expired, total := expired + taken, total + n;
        if n < limit {
          break;
        }
      }
      LessIsDue(was, service.store.rows, expired, now);
    }

    /** Erases until a batch comes back short: exactly the old history at the start goes, and
        the access list keeps, in order, the entries of chains that still have a row. */
    method DrainHistory(before: Time, limit: nat) returns (erased: nat, ghost gone: set<Id>)
      requires service.Valid() && limit > 0
      modifies service.store
      ensures service.Valid() && service.issued == old(service.issued) && service.blob.objs == old(service.blob.objs)
      ensures gone == Erasable(old(service.store.rows), before) && erased == |gone|
      ensures service.store.rows == old(service.store.rows) - gone
      ensures service.store.Abs().acl == Kept(old(service.store.Abs().acl), ChainIn(Roots(service.store.rows)))
    {
      erased, gone := 0, {};
      ghost var was, acl := service.store.rows, service.store.Abs().acl;
      while true
        invariant service.Valid() && service.issued == old(service.issued) && service.blob.objs == old(service.blob.objs)
        invariant gone <= Erasable(was, before) && erased == |gone|
        invariant service.store.rows == was - gone
        invariant service.store.Abs().acl == acl || service.store.Abs().acl == Kept(acl, ChainIn(Roots(was - gone)))
        decreases |Erasable(service.store.rows, before)|
      {
        var n, taken := EraseBatch(before, limit);
        EraseMore(was, gone, taken, before);
        KeptNarrower(acl, Roots(was - gone), Roots(was - (gone + taken)));
        gone, erased := gone + taken, erased + n;
        if n < limit {
          break;
        }
      }
    }

    /** One pass. Whatever the batch size and the order rows are met in: what was due at the
        start is expired and nothing else, its objects are gone, nothing due is left, and the
        history stage erases exactly the records that were old before the pass began. */
    method RunOnce(now: Time) returns (total: nat, erased: nat, ghost expired: set<Id>, ghost gone: set<Id>)
      requires service.Valid()
      modifies service.store, service.blob
      ensures service.Valid() && service.issued == old(service.issued)
      ensures expired == Eligible(old(service.store.rows), now) && total == |expired|
      ensures gone == (if historyKeep <= 0 then {} else Erasable(old(service.store.rows), now - historyKeep))
      ensures erased == |gone| && expired !! gone
      ensures AfterPass(old(service.store.rows), service.store.rows, expired, gone, now)
      ensures Eligible(service.store.rows, now) == {}
      ensures service.store.Abs().acl ==
                if historyKeep <= 0 then old(service.store.Abs().acl)
                else Kept(old(service.store.Abs().acl), ChainIn(Roots(service.store.rows)))
      ensures service.blob.objs == old(service.blob.objs) - RefsAmong(old(service.store.rows), expired)
    {
      var limit: nat := if batch <= 0 then 500 else batch;
      total, expired := Drain(now, limit);
      erased, gone := 0, {};
      if historyKeep <= 0 {
        return;
      }
      OwnExpiryIsNotHistory(old(service.store.rows), service.store.rows, now, historyKeep);
      erased, gone := DrainHistory(now - historyKeep, limit);
    }
  }

  // ---- The chain's clock -------------------------------------------------------------------------

  /** The instant a chain's retention read reports is exactly the sweep's: of a chain that had
      stored bytes, some are left after a pass if and only if a stored row is held, or has no
      date, or a dated one exists and the pass comes no later than that instant. */
  lemma ReportedInstantIsTheSweepsClock(
      was: map<Id, Document>, rows: map<Id, Document>, root: Id, until: Time, gone: set<Id>, now: Time, before: Time)
    requires StorageMatchesStatus(was) && ZERO_TIME < now
    requires AfterPass(was, rows, Eligible(was, now), gone, now) && gone <= Erasable(was, before)
    requires Reads.IsLatest(was, Reads.Stored(was, root), until)
    ensures Reads.Stored(rows, root) != {} <==>
              exists id | id in Reads.Stored(was, root) ::
                was[id].legalHold || was[id].retentionUntil.None? || now <= until
  {
    var stored := Reads.Stored(was, root);
    forall id | id in Reads.Stored(rows, root)
      ensures id in stored && (was[id].legalHold || was[id].retentionUntil.None? || now <= until)
    {
      assert id !in Eligible(was, now);
    }
    forall id | id in stored && (was[id].legalHold || was[id].retentionUntil.None?) ensures id in Reads.Stored(rows, root) {
      assert id !in Eligible(was, now) && id !in Erasable(was, before);
    }
    if stored != {} && now <= until {
      var id :| id in stored && was[id].retentionUntil == Some(until);
      assert id !in Eligible(was, now) && id !in Erasable(was, before);
      assert id in Reads.Stored(rows, root);
    }
  }

  /** The read answers "gone" from the pass on exactly for the rows it expired: every other
      stored row, held ones among them, keeps its bytes. */
  lemma PassTakesOnlyWhatIsDue(was: map<Id, Document>, rows: map<Id, Document>, gone: set<Id>, now: Time, before: Time, id: Id)
    requires StorageMatchesStatus(was) && AfterPass(was, rows, Eligible(was, now), gone, now)
    requires gone <= Erasable(was, before) && id in was && was[id].storageRef != NO_ID
    ensures id in rows
    ensures rows[id].storageRef == NO_ID <==>
              !was[id].legalHold && was[id].retentionUntil.Some? && was[id].retentionUntil.value < now
  {}
}
