/** What holds of every run of any number of interleaved requests. */
module ProtocolRuns {
  import opened Types
  import opened Metadata
  import Reads
  import opened StoreRuns
  import opened Swaps
  import opened ByteModel
  import opened Documents
  import opened Protocol
  import opened ProtocolSafety

  ghost predicate IsSystemRun(f: Format, ss: seq<System>, steps: seq<Move>) {
    && |ss| == |steps| + 1
    && forall i | 0 <= i < |steps| :: CanStep(f, ss[i], steps[i]) && ss[i + 1] == After(f, ss[i], steps[i])
  }

  lemma InitialInv(f: Format)
    ensures SystemInv(f, INITIAL)
  {}

  /** Every system reachable by any interleaving satisfies the invariant. */
  lemma {:induction false} ReachableSystemInv(f: Format, ss: seq<System>, steps: seq<Move>)
    requires f.Lawful() && IsSystemRun(f, ss, steps) && SystemInv(f, ss[0])
    ensures forall i | 0 <= i < |ss| :: SystemInv(f, ss[i])
  {
    for n := 0 to |steps|
      invariant forall i | 0 <= i <= n :: SystemInv(f, ss[i])
    {
      StepKeepsInv(f, ss[n], steps[n]);
    }
  }

  // ---- Every object is accounted for -------------------------------------------------------

  function StagedKeys(ops: map<nat, Op>): set<Id> { set o | o in ops && ops[o].Staged? :: ops[o].key }

  function DoomedKeys(ops: map<nat, Op>): set<Id> {
    set o, k | o in ops && ops[o].Cleaning? && k in ops[o].keys :: k
  }

  function OrphanKeys(owner: map<Id, Holder>): set<Id> { set k | k in owner && owner[k].Orphaned? }

  /** At every step the object keys are exactly the references of live rows, the objects put
      but not yet committed, those whose deletion is pending and those a failure left behind;
      the four do not overlap, no two rows and no two requests share a key, a row has no
      reference exactly when it is expired or deleted, and every referenced object opens to
      bytes with the row's digest and size. */
  lemma ObjectsAccountedFor(f: Format, s: System)
    requires SystemInv(f, s)
    ensures s.objs.Keys == LiveRefs(s.w.st.rows) + StagedKeys(s.ops) + DoomedKeys(s.ops) + OrphanKeys(s.owner)
    ensures LiveRefs(s.w.st.rows) !! StagedKeys(s.ops) !! DoomedKeys(s.ops) !! OrphanKeys(s.owner)
    ensures RefsDistinct(s.w.st.rows) && StorageMatchesStatus(s.w.st.rows)
    ensures forall o, p | o in s.ops && p in s.ops && o != p :: HeldKeys(s.ops[o]) !! HeldKeys(s.ops[p])
    ensures Faithful(f.crypto, s.w.st.rows, s.objs)
  {
    var live, staged, doomed, orphans :=
      LiveRefs(s.w.st.rows), StagedKeys(s.ops), DoomedKeys(s.ops), OrphanKeys(s.owner);
    LiveKeys(s.w.st.rows, s.owner);
    HeldByOps(s.ops, s.owner);
    forall k | k in s.objs ensures k in live + staged + doomed + orphans {
      assert k in s.owner;
    }
    forall id | id in s.w.st.rows ensures RowRecorded(f.crypto, s.w.st.rows[id], s.objs, s.contents[id]) {}
  }

  lemma LiveKeys(rows: map<Id, Document>, owner: map<Id, Holder>)
    requires HoldersMatchRows(rows, owner)
    ensures forall k :: k in LiveRefs(rows) <==> k in owner && owner[k].RowHolds?
  {
    forall k | k in owner && owner[k].RowHolds? ensures k in LiveRefs(rows) {
      assert rows[owner[k].id].storageRef == k;
    }
  }

  lemma HeldByOps(ops: map<nat, Op>, owner: map<Id, Holder>)
    requires HoldersMatchOps(ops, owner)
    ensures forall k :: k in StagedKeys(ops) <==> k in owner && owner[k].StagedBy?
    ensures forall k :: k in DoomedKeys(ops) <==> k in owner && owner[k].DoomedBy?
    ensures forall o, p | o in ops && p in ops && o != p :: HeldKeys(ops[o]) !! HeldKeys(ops[p])
  {
    forall k | k in StagedKeys(ops) ensures k in owner && owner[k].StagedBy? {
      var o :| o in ops && ops[o].Staged? && ops[o].key == k;
      assert k in HeldKeys(ops[o]);
    }
    forall k | k in DoomedKeys(ops) ensures k in owner && owner[k].DoomedBy? {
      var o :| o in ops && ops[o].Cleaning? && k in ops[o].keys;
      assert k in HeldKeys(ops[o]);
    }
    forall o, p, k | o in ops && p in ops && k in HeldKeys(ops[o]) && k in HeldKeys(ops[p]) ensures o == p {
      assert owner[k] == if ops[o].Staged? then StagedBy(o) else DoomedBy(o);
      assert owner[k] == if ops[p].Staged? then StagedBy(p) else DoomedBy(p);
    }
  }

  // A failure leaves objects behind: a delete that fails, or a request that dies holding some.
  ghost predicate Leaks(s: System, step: Move) {
    step.DeleteFails? || (step.Crash? && step.op in s.ops && HeldKeys(s.ops[step.op]) != {})
  }

  lemma OrphansOnlyFromFailures(f: Format, s: System, step: Move)
    requires CanStep(f, s, step) && !Leaks(s, step)
    ensures OrphanKeys(After(f, s, step).owner) <= OrphanKeys(s.owner)
  {}

  /** Without failures nothing is ever left behind, and whenever no request is in flight the
      objects are exactly those rows refer to. */
  lemma {:induction false} NothingLeaksUnlessAFailure(f: Format, ss: seq<System>, steps: seq<Move>)
    requires f.Lawful() && IsSystemRun(f, ss, steps) && ss[0] == INITIAL
    requires forall i | 0 <= i < |steps| :: !Leaks(ss[i], steps[i])
    ensures forall i | 0 <= i < |ss| :: OrphanKeys(ss[i].owner) == {}
    ensures forall i | 0 <= i < |ss| && ss[i].ops == map[] :: Settled(f.crypto, ss[i].w, ss[i].objs)
  {
    InitialInv(f);
    ReachableSystemInv(f, ss, steps);
    for n := 0 to |steps|
      invariant forall i | 0 <= i <= n :: OrphanKeys(ss[i].owner) == {}
    {
      OrphansOnlyFromFailures(f, ss[n], steps[n]);
    }
    forall i | 0 <= i < |ss| && ss[i].ops == map[] ensures Settled(f.crypto, ss[i].w, ss[i].objs) {
      ObjectsAccountedFor(f, ss[i]);
    }
  }

  lemma OrphanIsUnheld(s: System, op: nat, key: Id)
    requires Owned(s) && key in OrphanKeys(s.owner)
    ensures op in s.ops ==> key !in HeldKeys(s.ops[op])
    ensures key !in LiveRefs(s.w.st.rows)
  {
    LiveKeys(s.w.st.rows, s.owner);
  }

  lemma OrphanStaysAStep(f: Format, s: System, step: Move, s': System, key: Id)
    requires Owned(s) && CanStep(f, s, step) && s' == After(f, s, step) && key in OrphanKeys(s.owner)
    ensures key in OrphanKeys(s'.owner)
  {
    OrphanIsUnheld(s, step.op, key);
  }

  /** What a failure left behind stays: no sweep and no other step ever removes the object. */
  lemma {:induction false} OrphansStay(f: Format, ss: seq<System>, steps: seq<Move>, i: nat, j: nat, key: Id)
    requires f.Lawful() && IsSystemRun(f, ss, steps) && SystemInv(f, ss[0]) && i <= j <= |steps|
    requires key in OrphanKeys(ss[i].owner)
    ensures key in OrphanKeys(ss[j].owner) && key in ss[j].objs
  {
    ReachableSystemInv(f, ss, steps);
    for n := i to j
      invariant key in OrphanKeys(ss[n].owner)
    {
      OrphanStaysAStep(f, ss[n], steps[n], ss[n + 1], key);
    }
  }

  // ---- Reading in two steps ------------------------------------------------------------------

  /** Once the row is read, the object it names is either gone or readable. */
  lemma FetchFailsOnlyWhenGone(f: Format, s: System, op: nat)
    requires SystemInv(f, s) && op in s.ops && s.ops[op].Reading?
    ensures CanStep(f, s, FetchObject(op)) <==> s.ops[op].doc.storageRef in s.objs
  {
    assert OpSound(f, s.ops[op], s.objs, s.drawn);
  }

  lemma OtherOpStays(f: Format, s: System, step: Move, s': System, op: nat)
    requires CanStep(f, s, step) && s' == After(f, s, step) && op in s.ops && step.op != op
    ensures op in s'.ops && s'.ops[op] == s.ops[op]
  {}

  // Between two of its steps a request may have to wait for any number of others.
  predicate Waits(steps: seq<Move>, op: nat, i: nat, j: nat)
    requires j <= |steps|
  {
    forall k | i < k < j :: steps[k].op != op
  }

  lemma {:induction false} OpWaits(f: Format, ss: seq<System>, steps: seq<Move>, i: nat, j: nat, op: nat)
    requires IsSystemRun(f, ss, steps)
    requires i < j <= |steps| && op in ss[i + 1].ops && Waits(steps, op, i, j)
    ensures op in ss[j].ops && ss[j].ops[op] == ss[i + 1].ops[op]
  {
    for n := i + 1 to j
      invariant op in ss[n].ops && ss[n].ops[op] == ss[i + 1].ops[op]
    {
      OtherOpStays(f, ss[n], steps[n], ss[n + 1], op);
    }
  }

  /** The row and the object are read in two steps, and anything may happen in between: the
      bytes, if there still are any, are those the row described when it was read. */
  lemma ContentIsOfTheRowRead(
      f: Format, ss: seq<System>, steps: seq<Move>, i: nat, j: nat, op: nat, id: Id, caller: Caller, job: Job)
    requires f.Lawful() && IsSystemRun(f, ss, steps) && SystemInv(f, ss[0])
    requires i < j < |steps| && steps[i] == ReadRow(op, id, caller, job) && steps[j] == FetchObject(op)
    requires Waits(steps, op, i, j)
    ensures op in ss[j + 1].ops && ss[j + 1].ops[op].Fetched?
    ensures Reads.Get(ss[i].w.st, id, caller) == Ok(ss[j + 1].ops[op].doc)
    ensures f.crypto.hash(ss[j + 1].ops[op].data) == ss[j + 1].ops[op].doc.contentHash
    ensures id in ss[i].contents && ss[j + 1].ops[op].data == ss[i].contents[id]
  {
    ReachableSystemInv(f, ss, steps);
    OpWaits(f, ss, steps, i, j, op);
    assert OpSound(f, ss[j + 1].ops[op], ss[j + 1].objs, ss[j + 1].drawn);
    assert RowRecorded(f.crypto, ss[i].w.st.rows[id], ss[i].objs, ss[i].contents[id]);
  }

  lemma RunPart(f: Format, ss: seq<System>, steps: seq<Move>, g: nat, j: nat)
    requires IsSystemRun(f, ss, steps) && g <= j <= |steps|
    ensures IsSystemRun(f, ss[g..j + 1], steps[g..j])
    ensures |steps[g..j]| == j - g && ss[g..j + 1][0] == ss[g] && ss[g..j + 1][j - g] == ss[j]
  {}

  // ---- The store behind a run of the system -------------------------------------------------------

  predicate CallsStore(step: Move) { step.Commit? || step.Call? }

  function CallsOf(steps: seq<Move>): seq<Action> {
    if steps == [] then []
    else
      var last := steps[|steps| - 1];
      CallsOf(steps[..|steps| - 1]) + (if CallsStore(last) then [last.action] else [])
  }

  function WorldsOf(ss: seq<System>, steps: seq<Move>): seq<World>
    requires |ss| == |steps| + 1
  {
    if steps == [] then [ss[0].w]
    else
      var n := |steps|;
      WorldsOf(ss[..n], steps[..n - 1]) + (if CallsStore(steps[n - 1]) then [ss[n].w] else [])
  }

  lemma RunWithoutLastStep(f: Format, ss: seq<System>, steps: seq<Move>)
    requires IsSystemRun(f, ss, steps) && steps != []
    ensures var n := |steps|;
            && IsSystemRun(f, ss[..n], steps[..n - 1])
            && if CallsStore(steps[n - 1]) then
                 Enabled(ss[n - 1].w, steps[n - 1].action) && ss[n].w == Step(ss[n - 1].w, steps[n - 1].action)
               else ss[n].w == ss[n - 1].w
  {
    StoreIsRefined(f, ss[|steps| - 1], steps[|steps| - 1]);
  }

  /** Every interleaving is, for the store, one run of its atomic calls: whatever holds over
      runs of the store holds with any number of requests in flight. */
  lemma {:induction false} RunsRefineStoreRuns(f: Format, ss: seq<System>, steps: seq<Move>)
    requires IsSystemRun(f, ss, steps)
    ensures var ws := WorldsOf(ss, steps);
            IsRun(ws, CallsOf(steps)) && ws[0] == ss[0].w && ws[|ws| - 1] == ss[|steps|].w
  {
    if steps != [] {
      var n := |steps|;
      RunWithoutLastStep(f, ss, steps);
      RunsRefineStoreRuns(f, ss[..n], steps[..n - 1]);
      if CallsStore(steps[n - 1]) {
        RunExtends(WorldsOf(ss[..n], steps[..n - 1]), CallsOf(steps[..n - 1]), steps[n - 1].action);
      }
    }
  }

  /** A row held against deletion keeps its bytes, and they stay readable, through any
      interleaving in which nobody lifts the hold. */
  lemma HeldBytesStayReadable(f: Format, ss: seq<System>, steps: seq<Move>, id: Id)
    requires f.Lawful() && IsSystemRun(f, ss, steps) && SystemInv(f, ss[0])
    requires HeldLive(ss[0].w.st.rows, id)
    requires SetLegalHold(id, false) !in CallsOf(steps)
    ensures var last := ss[|steps|];
            && HeldLive(last.w.st.rows, id) && last.w.st.rows[id].storageRef in last.objs
            && Opens(f.crypto, last.objs[last.w.st.rows[id].storageRef], last.w.st.rows[id].encryptionKeyRef,
                     last.w.st.rows[id].contentHash, last.w.st.rows[id].size)
  {
    RunsRefineStoreRuns(f, ss, steps);
    HoldSurvives(WorldsOf(ss, steps), CallsOf(steps), id);
    ReachableSystemInv(f, ss, steps);
    ObjectsAccountedFor(f, ss[|steps|]);
  }

  // ---- The bytes under a hold ------------------------------------------------------------------

  // A key that was used and will hold nothing any more: at most an object waiting to be deleted.
  ghost predicate Spent(s: System, key: Id) {
    key in s.drawn && (key in s.owner ==> s.owner[key].DoomedBy? || s.owner[key].Orphaned?)
  }

  lemma SpentStaysSpent(f: Format, s: System, step: Move, key: Id)
    requires Owned(s) && CanStep(f, s, step) && Spent(s, key)
    ensures Spent(After(f, s, step), key)
  {
    if step.Commit? {
      assert s.ops[step.op].key in HeldKeys(s.ops[step.op]);
    }
  }

  lemma SwapSpends(f: Format, s: System, op: nat, a: Action, id: Id)
    requires Owned(s) && CanStep(f, s, Commit(op, a)) && Swapped(s.w.st, a, id)
    requires s.w.st.rows[id].storageRef != NO_ID
    ensures Spent(After(f, s, Commit(op, a)), s.w.st.rows[id].storageRef)
  {
    var key := s.w.st.rows[id].storageRef;
    assert key in LiveRefs(s.w.st.rows) && key in s.owner;
    SwappedIsAccepted(s.w.st, a, id);
    assert key in Freed(s.w.st, a);
  }

  ghost predicate SwapsAt(ss: seq<System>, steps: seq<Move>, i: nat, id: Id)
    requires i < |steps| && i < |ss|
  {
    steps[i].Commit? && Swapped(ss[i].w.st, steps[i].action, id)
  }

  // One step of the request or the store, as it bears on the object a held row started with.
  lemma HeldObjectStep(f: Format, s: System, step: Move, s': System, id: Id)
    requires SystemInv(f, s) && CanStep(f, s, step) && s' == After(f, s, step) && HeldLive(s.w.st.rows, id)
    requires CallsStore(step) ==> step.action != SetLegalHold(id, false)
    ensures HeldLive(s'.w.st.rows, id)
    ensures if step.Commit? && Swapped(s.w.st, step.action, id) then Spent(s', s.w.st.rows[id].storageRef)
            else s'.w.st.rows[id].storageRef == s.w.st.rows[id].storageRef
  {
    StoreIsRefined(f, s, step);
    if CallsStore(step) {
      HeldBytesMakeWayIff(s.w, step.action, id);
      if step.Commit? && Swapped(s.w.st, step.action, id) {
        SwapSpends(f, s, step.op, step.action, id);
      }
    }
  }

  /** With any number of requests in flight, a held row still has the very object it had exactly
      when no replacement that meets its tests was committed in between. */
  lemma {:induction false} HeldObjectIsTheSameIff(f: Format, ss: seq<System>, steps: seq<Move>, id: Id)
    requires f.Lawful() && IsSystemRun(f, ss, steps) && SystemInv(f, ss[0]) && HeldLive(ss[0].w.st.rows, id)
    requires forall i | 0 <= i < |steps| && CallsStore(steps[i]) :: steps[i].action != SetLegalHold(id, false)
    ensures HeldLive(ss[|steps|].w.st.rows, id)
    ensures ss[|steps|].w.st.rows[id].storageRef == ss[0].w.st.rows[id].storageRef <==>
            forall i | 0 <= i < |steps| :: !SwapsAt(ss, steps, i, id)
  {
    ReachableSystemInv(f, ss, steps);
    var key := ss[0].w.st.rows[id].storageRef;
    for n := 0 to |steps|
      invariant HeldLive(ss[n].w.st.rows, id)
      invariant if forall i | 0 <= i < n :: !SwapsAt(ss, steps, i, id) then ss[n].w.st.rows[id].storageRef == key
                else Spent(ss[n], key)
    {
      HeldObjectStep(f, ss[n], steps[n], ss[n + 1], id);
      if Spent(ss[n], key) {
        SpentStaysSpent(f, ss[n], steps[n], key);
      }
      assert SwapsAt(ss, steps, n, id) <==> steps[n].Commit? && Swapped(ss[n].w.st, steps[n].action, id);
    }
  }

  lemma RowContinues(f: Format, ss: seq<System>, steps: seq<Move>, id: Id)
    requires IsSystemRun(f, ss, steps) && Inv(ss[0].w) && id in ss[0].w.st.rows
    ensures id in ss[|steps|].w.st.rows ==> Continues(ss[0].w.st.rows[id], ss[|steps|].w.st.rows[id])
  {
    RunsRefineStoreRuns(f, ss, steps);
    RowsContinueOverRuns(WorldsOf(ss, steps), CallsOf(steps), id);
  }

  // A row keeps its kind, and a source the digest it came with.
  lemma SourceKeepsDigest(f: Format, ss: seq<System>, steps: seq<Move>, g: nat, j: nat, id: Id)
    requires f.Lawful() && IsSystemRun(f, ss, steps) && SystemInv(f, ss[0])
    requires g <= j <= |steps| && id in ss[g].w.st.rows
    ensures id in ss[j].w.st.rows ==>
              var (d, e) := (ss[g].w.st.rows[id], ss[j].w.st.rows[id]);
              e.kind == d.kind && (d.kind.Source? ==> e.contentHash == d.contentHash)
  {
    ReachableSystemInv(f, ss, steps);
    RunPart(f, ss, steps, g, j);
    RowContinues(f, ss[g..j + 1], steps[g..j], id);
  }

  /** The bytes of a source never change, whatever runs between two looks at it. */
  lemma SourceBytesNeverChange(f: Format, ss: seq<System>, steps: seq<Move>, g: nat, j: nat, id: Id)
    requires f.Lawful() && IsSystemRun(f, ss, steps) && SystemInv(f, ss[0])
    requires g <= j <= |steps| && id in ss[g].w.st.rows && id in ss[j].w.st.rows && ss[g].w.st.rows[id].kind.Source?
    ensures id in ss[g].contents && id in ss[j].contents && ss[j].contents[id] == ss[g].contents[id]
  {
    SourceKeepsDigest(f, ss, steps, g, j, id);
    ReachableSystemInv(f, ss, steps);
    assert RowRecorded(f.crypto, ss[g].w.st.rows[id], ss[g].objs, ss[g].contents[id]);
    assert RowRecorded(f.crypto, ss[j].w.st.rows[id], ss[j].objs, ss[j].contents[id]);
  }
}
