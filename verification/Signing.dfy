/** Many signers, one container: requests that merge into the bytes they read never drop each
    other's signatures, and a request that does not merge drops none exactly when its own bytes
    have them. */
module Signing {
  import opened Types
  import opened Metadata
  import Reads
  import opened StoreRuns
  import opened ByteModel
  import opened Protocol
  import opened ProtocolSafety
  import opened ProtocolRuns

  // ---- The searches do not depend on the order rows are met in ---------------------------------

  lemma AtMostOneArtifact(rows: map<Id, Document>, parent: Id)
    requires OneArtifact(rows) && Keyed(rows) && parent != NO_ID
    ensures forall x, y | x in Reads.ContainersOf(rows, parent) && y in Reads.ContainersOf(rows, parent) :: x == y
    ensures forall x, y | x in Reads.SignedPdfsOf(rows, parent) && y in Reads.SignedPdfsOf(rows, parent) :: x == y
  {
    forall x, y | x in Reads.ContainersOf(rows, parent) && y in Reads.ContainersOf(rows, parent) ensures x == y {
      var _ := Rivals(rows[x], rows[y]);
    }
    forall x, y | x in Reads.SignedPdfsOf(rows, parent) && y in Reads.SignedPdfsOf(rows, parent) ensures x == y {
      var _, _ := Rivals(rows[x], rows[y]), Rivals(rows[y], rows[x]);
    }
  }

  /** Whatever row the search meets first, it gives one answer. */
  lemma SearchesAreOrderFree(w: World, parent: Id, caller: Caller, r: Result<Document>, q: Result<Document>)
    requires Inv(w)
    ensures var found := Reads.ContainersOf(w.st.rows, parent);
            Reads.Answers(w.st, parent, caller, found, r) && Reads.Answers(w.st, parent, caller, found, q) ==> r == q
    ensures var found := Reads.SignedPdfsOf(w.st.rows, parent);
            Reads.Answers(w.st, parent, caller, found, r) && Reads.Answers(w.st, parent, caller, found, q) ==> r == q
  {
    if parent != NO_ID {
      AtMostOneArtifact(w.st.rows, parent);
    }
  }

  /** A second container is refused exactly when the parent has one live container, one only. */
  lemma BlockedIffOneWinner(w: World, input: InsertInput)
    requires Inv(w) && KindOf(input).Container? && input.parentId != NO_ID
    ensures InsertBlocked(w.st, input) <==> exists winner :: Reads.ContainersOf(w.st.rows, input.parentId) == {winner}
  {
    var found := Reads.ContainersOf(w.st.rows, input.parentId);
    AtMostOneArtifact(w.st.rows, input.parentId);
    if InsertBlocked(w.st, input) {
      var winner :| winner in w.st.rows && Blocks(w.st.rows[winner], Container, input.parentId);
      assert winner in found;
      assert found == {winner};
    }
    forall winner | found == {winner} ensures InsertBlocked(w.st, input) {
      assert winner in found && Blocks(w.st.rows[winner], Container, input.parentId);
    }
  }

  /** The loser of a create race withdraws its object and goes to look the one winner up. */
  lemma LostRaceHasOneWinner(f: Format, s: System, op: nat, a: Action)
    requires Inv(s.w) && CanStep(f, s, Commit(op, a)) && s.ops[op].plan.CreateContainer? && Refusal(s.w.st, a).Some?
    ensures var plan := s.ops[op].plan;
            && (exists winner :: Reads.ContainersOf(s.w.st.rows, plan.parent) == {winner})
            && Committed(f, s, op, a).ops[op] == Cleaning({s.ops[op].key}, LookUpWinner(plan.parent, plan.fileless))
  {
    BlockedIffOneWinner(s.w, a.insert);
  }

  /** A merge commits exactly when the row still holds, byte for byte, what it merged over. */
  lemma MergeCommitsIffUnmoved(f: Format, s: System, op: nat, a: Action)
    requires f.Lawful() && SystemInv(f, s) && CanStep(f, s, Commit(op, a))
    requires s.ops[op].plan.MergeInto? && ValidClass(a.replace.preservationClass)
    ensures var (row, base) := (s.ops[op].plan.row, s.ops[op].plan.base);
            Refusal(s.w.st, a).None? <==>
              && row in s.w.st.rows && !s.w.st.rows[row].status.Deleted? && !s.w.st.rows[row].kind.Source?
              && s.contents[row] == base
  {
    var row := s.ops[op].plan.row;
    if row in s.w.st.rows {
      assert RowRecorded(f.crypto, s.w.st.rows[row], s.objs, s.contents[row]);
    }
  }

  // ---- What signers have put in stays in ------------------------------------------------------------

  // The container holds the data objects and at least the signatures recorded for it, and its
  // row is past the draft in which a bundle may still be rebuilt.
  ghost predicate EntryKept(p: Packaging, d: Document, data: Bytes, e: Entry) {
    d.kind.Container? && !d.status.Received? && Has(p, data, e)
  }

  ghost predicate Has(p: Packaging, data: Bytes, e: Entry) {
    p.dataObjects(data) == e.objects && e.signatures <= p.signatures(data)
  }

  // What merging requests recorded of this container is still in it, while its row is there.
  ghost predicate RecordKept(p: Packaging, s: System, id: Id) {
    id in s.log ==>
      && id in s.w.issued
      && (id in s.w.st.rows ==> id in s.contents && EntryKept(p, s.w.st.rows[id], s.contents[id], s.log[id]))
  }

  // The entry only gains signatures; its data objects stay.
  ghost predicate EntryGrows(log: map<Id, Entry>, log': map<Id, Entry>, id: Id) {
    id in log ==> id in log' && log'[id].objects == log[id].objects && log[id].signatures <= log'[id].signatures
  }

  // The step does not supersede this container, or with bytes that have what is recorded of it.
  ghost predicate KeepsRecord(f: Format, s: System, step: Move, id: Id) {
    step.Commit? && step.op in s.ops && s.ops[step.op].Staged? && s.ops[step.op].plan.Supersede?
    && s.ops[step.op].plan.row == id && id in s.log && Refusal(s.w.st, step.action).None? ==>
      Has(f.packaging, s.ops[step.op].data, s.log[id])
  }

  // A container past its draft stays one, whatever the call does to its row otherwise.
  lemma EntryFollows(p: Packaging, w: World, a: Action, id: Id, data: Bytes, e: Entry)
    requires Enabled(w, a) && IdsIssued(w) && id in w.issued && id in Apply(w.st, a).rows
    requires id in w.st.rows ==> EntryKept(p, w.st.rows[id], data, e)
    ensures id in w.st.rows && EntryKept(p, Apply(w.st, a).rows[id], data, e)
  {
    RowsContinue(w, a, id);
  }

  ghost predicate Succeeds(f: Format, s: System, op: nat, a: Action) {
    CanStep(f, s, Commit(op, a)) && Refusal(s.w.st, a).None?
  }

  // A merge was made over the very bytes it replaces.
  lemma MergedOverCurrent(f: Format, s: System, op: nat, a: Action)
    requires f.Lawful() && SystemInv(f, s) && Succeeds(f, s, op, a) && s.ops[op].plan.MergeInto?
    ensures var (p, row, o) := (f.packaging, a.replace.id, s.ops[op]);
            && row in s.w.st.rows && row in s.contents && o.plan.row == row
            && p.dataObjects(o.data) == p.dataObjects(s.contents[row])
            && p.signatures(s.contents[row]) + o.plan.added <= p.signatures(o.data)
  {
    assert RowRecorded(f.crypto, s.w.st.rows[a.replace.id], s.objs, s.contents[a.replace.id]);
    assert OpSound(f, s.ops[op], s.objs, s.drawn);
  }

  // The row a write brings its bytes to.
  function TargetOf(a: Action): Id { if LoadOf(a).Some? then LoadOf(a).value.target else NO_ID }

  lemma CreateLands(f: Format, s: System, op: nat, a: Action)
    requires Succeeds(f, s, op, a) && s.ops[op].plan.CreateContainer?
    ensures a.Insert? && a.id !in s.w.issued && TargetOf(a) == a.id && a.id in Apply(s.w.st, a).rows
    ensures var d := Apply(s.w.st, a).rows[a.id]; d.kind.Container? && d.status.Signed?
  {}

  lemma SwapLands(f: Format, s: System, op: nat, a: Action)
    requires Succeeds(f, s, op, a) && (s.ops[op].plan.MergeInto? || s.ops[op].plan.Supersede?)
    ensures a.Replace? && TargetOf(a) == a.replace.id == s.ops[op].plan.row
    ensures a.replace.id in s.w.st.rows && a.replace.id in Apply(s.w.st, a).rows
    ensures Apply(s.w.st, a).rows[a.replace.id].kind == s.w.st.rows[a.replace.id].kind
    ensures Apply(s.w.st, a).rows[a.replace.id].status.Signed?
  {}

  // The other writes: inserts and bundles make new rows, a rebundle takes only a draft.
  lemma OtherLands(f: Format, s: System, op: nat, a: Action)
    requires IdsIssued(s.w) && Succeeds(f, s, op, a) && s.ops[op].plan.OtherWrite?
    ensures var id := TargetOf(a);
            && id in Apply(s.w.st, a).rows
            && (id in s.w.issued ==> id in s.w.st.rows && s.w.st.rows[id].status.Received?)
  {
    if a.Rebundle? {
      NoFault(s.w.st.rows, a.rebundle.absorbSourceIds, 0, a.rebundle.owner, false);
    }
    if a.Bundle? {
      NoFault(s.w.st.rows, a.bundle.sourceIds, 0, a.bundle.owner, true);
    }
  }

  // Where an accepted write lands: on this row, which it leaves like this.
  ghost predicate LandsOn(s: System, plan: Plan, id: Id, d: Document) {
    match plan
    case CreateContainer(_, _, _) => id !in s.w.issued && d.kind.Container? && d.status.Signed?
    case MergeInto(row, _, _) => id == row && id in s.w.st.rows && d.kind == s.w.st.rows[id].kind && d.status.Signed?
    case Supersede(row, _) => id == row && id in s.w.st.rows && d.kind == s.w.st.rows[id].kind && d.status.Signed?
    case OtherWrite => id in s.w.issued ==> id in s.w.st.rows && s.w.st.rows[id].status.Received?
  }

  lemma CommitLands(f: Format, s: System, op: nat, a: Action)
    requires IdsIssued(s.w) && Succeeds(f, s, op, a)
    ensures TargetOf(a) in Apply(s.w.st, a).rows && LandsOn(s, s.ops[op].plan, TargetOf(a), Apply(s.w.st, a).rows[TargetOf(a)])
    ensures TargetOf(a) in s.w.issued + FreshIds(a)
  {
    match s.ops[op].plan
    case CreateContainer(_, _, _) => CreateLands(f, s, op, a);
    case MergeInto(_, _, _) => SwapLands(f, s, op, a);
    case Supersede(_, _) => SwapLands(f, s, op, a);
    case OtherWrite => OtherLands(f, s, op, a);
  }

  // What an accepted commit changes that the record is about.
  ghost predicate Effected(f: Format, s: System, o: Op, id: Id, s': System)
    requires o.Staged?
  {
    && id in s'.w.st.rows && LandsOn(s, o.plan, id, s'.w.st.rows[id]) && id in s'.w.issued
    && s'.contents == s.contents[id := o.data] && s'.log == Logged(f, s, o, id)
  }

  lemma CommitEffect(f: Format, s: System, op: nat, a: Action)
    requires IdsIssued(s.w) && Succeeds(f, s, op, a)
    ensures Effected(f, s, s.ops[op], TargetOf(a), Committed(f, s, op, a))
  {
    CommitLands(f, s, op, a);
  }

  // What the bytes of a write have of the container they replace.
  ghost predicate BytesHave(f: Format, s: System, o: Op)
    requires o.Staged?
  {
    match o.plan
    case CreateContainer(_, _, _) => true
    case MergeInto(row, _, added) =>
      && row in s.contents
      && f.packaging.dataObjects(o.data) == f.packaging.dataObjects(s.contents[row])
      && f.packaging.signatures(s.contents[row]) + added <= f.packaging.signatures(o.data)
    case Supersede(row, _) => row in s.log ==> Has(f.packaging, o.data, s.log[row])
    case OtherWrite => true
  }

  lemma CommitBytesHave(f: Format, s: System, op: nat, a: Action)
    requires f.Lawful() && SystemInv(f, s) && Succeeds(f, s, op, a)
    requires KeepsRecord(f, s, Commit(op, a), TargetOf(a))
    ensures BytesHave(f, s, s.ops[op])
  {
    if s.ops[op].plan.MergeInto? {
      MergedOverCurrent(f, s, op, a);
    } else if s.ops[op].plan.Supersede? {
      SupersedeHas(f, s, op, a);
    }
  }

  lemma SupersedeHas(f: Format, s: System, op: nat, a: Action)
    requires Succeeds(f, s, op, a) && s.ops[op].plan.Supersede? && KeepsRecord(f, s, Commit(op, a), TargetOf(a))
    ensures BytesHave(f, s, s.ops[op])
  {}

  lemma TargetRecordKept(f: Format, s: System, o: Op, id: Id, s': System)
    requires o.Staged? && RecordKept(f.packaging, s, id) && Effected(f, s, o, id, s') && BytesHave(f, s, o)
    ensures RecordKept(f.packaging, s', id) && EntryGrows(s.log, s'.log, id)
  {}

  lemma RecordKeptByCommit(f: Format, s: System, op: nat, a: Action, id: Id)
    requires f.Lawful() && SystemInv(f, s) && RecordKept(f.packaging, s, id)
    requires CanStep(f, s, Commit(op, a)) && KeepsRecord(f, s, Commit(op, a), id)
    ensures var s' := Committed(f, s, op, a);
            RecordKept(f.packaging, s', id) && EntryGrows(s.log, s'.log, id)
  {
    if Refusal(s.w.st, a).None? && TargetOf(a) == id {
      CommitEffect(f, s, op, a);
      CommitBytesHave(f, s, op, a);
      TargetRecordKept(f, s, s.ops[op], id, Committed(f, s, op, a));
    } else {
      OtherRecordKept(f, s, op, a, id);
    }
  }

  lemma OtherRecordKept(f: Format, s: System, op: nat, a: Action, id: Id)
    requires SystemInv(f, s) && RecordKept(f.packaging, s, id) && CanStep(f, s, Commit(op, a))
    requires Refusal(s.w.st, a).Some? || TargetOf(a) != id
    ensures var s' := Committed(f, s, op, a);
            RecordKept(f.packaging, s', id) && EntryGrows(s.log, s'.log, id)
  {
    if id in s.log && id in Apply(s.w.st, a).rows {
      EntryFollows(f.packaging, s.w, a, id, if id in s.contents then s.contents[id] else [], s.log[id]);
    }
    if Refusal(s.w.st, a).None? {
      OthersUnlogged(f, s, op, a, id);
    }
  }

  lemma OthersUnlogged(f: Format, s: System, op: nat, a: Action, id: Id)
    requires CanStep(f, s, Commit(op, a)) && id != TargetOf(a)
    ensures var log' := Logged(f, s, s.ops[op], TargetOf(a));
            (id in log' <==> id in s.log) && (id in s.log ==> log'[id] == s.log[id])
  {}

  lemma RecordKeptByStep(f: Format, s: System, step: Move, s': System, id: Id)
    requires f.Lawful() && SystemInv(f, s) && RecordKept(f.packaging, s, id)
    requires CanStep(f, s, step) && KeepsRecord(f, s, step, id) && s' == After(f, s, step)
    ensures RecordKept(f.packaging, s', id) && EntryGrows(s.log, s'.log, id)
  {
    if step.Commit? {
      RecordKeptByCommit(f, s, step.op, step.action, id);
    } else if step.Call? {
      if id in s.log && id in Apply(s.w.st, step.action).rows {
        EntryFollows(f.packaging, s.w, step.action, id, if id in s.contents then s.contents[id] else [], s.log[id]);
      }
    } else {
      ElsewhereObjectsStay(f, s, step);
    }
  }

  lemma RecordKeptOnward(f: Format, s: System, step: Move, s': System, id: Id, first: map<Id, Entry>)
    requires f.Lawful() && SystemInv(f, s) && RecordKept(f.packaging, s, id)
    requires CanStep(f, s, step) && KeepsRecord(f, s, step, id) && s' == After(f, s, step)
    requires EntryGrows(first, s.log, id)
    ensures RecordKept(f.packaging, s', id) && EntryGrows(first, s'.log, id)
  {
    RecordKeptByStep(f, s, step, s', id);
  }

  lemma {:induction false} RecordKeptOverRuns(f: Format, ss: seq<System>, steps: seq<Move>, i: nat, j: nat, id: Id)
    requires f.Lawful() && IsSystemRun(f, ss, steps) && SystemInv(f, ss[0]) && i <= j <= |steps|
    requires RecordKept(f.packaging, ss[i], id)
    requires forall k | i <= k < j :: KeepsRecord(f, ss[k], steps[k], id)
    ensures SystemInv(f, ss[j]) && RecordKept(f.packaging, ss[j], id) && EntryGrows(ss[i].log, ss[j].log, id)
  {
    ReachableSystemInv(f, ss, steps);
    for n := i to j
      invariant RecordKept(f.packaging, ss[n], id) && EntryGrows(ss[i].log, ss[n].log, id)
    {
      RecordKeptOnward(f, ss[n], steps[n], ss[n + 1], id, ss[i].log);
    }
  }

  // Bytes that miss something recorded lose it.
  lemma MissingIsLost(f: Format, s: System, op: nat, a: Action, id: Id)
    requires f.Lawful() && SystemInv(f, s) && RecordKept(f.packaging, s, id)
    requires CanStep(f, s, Commit(op, a)) && !KeepsRecord(f, s, Commit(op, a), id)
    ensures !RecordKept(f.packaging, Committed(f, s, op, a), id)
  {
    SwapLands(f, s, op, a);
  }

  lemma RecordKeptByStepIff(f: Format, s: System, step: Move, s': System, id: Id)
    requires f.Lawful() && SystemInv(f, s) && RecordKept(f.packaging, s, id)
    requires CanStep(f, s, step) && s' == After(f, s, step)
    ensures RecordKept(f.packaging, s', id) <==> KeepsRecord(f, s, step, id)
  {
    if KeepsRecord(f, s, step, id) {
      RecordKeptByStep(f, s, step, s', id);
    } else {
      MissingIsLost(f, s, step.op, step.action, id);
    }
  }

  /** Over any run at all, and for each container by itself: it keeps, at every moment, what
      merging requests recorded of it exactly when no accepted replacement of that container made
      elsewhere had bytes that miss any of it. */
  lemma {:induction false} RecordsAreKeptIff(f: Format, ss: seq<System>, steps: seq<Move>, id: Id)
    requires f.Lawful() && IsSystemRun(f, ss, steps) && ss[0] == INITIAL
    ensures (forall j | 0 <= j < |ss| :: RecordKept(f.packaging, ss[j], id)) <==>
            (forall i | 0 <= i < |steps| :: KeepsRecord(f, ss[i], steps[i], id))
  {
    InitialInv(f);
    ReachableSystemInv(f, ss, steps);
    if forall i | 0 <= i < |steps| :: KeepsRecord(f, ss[i], steps[i], id) {
      forall j | 0 <= j < |ss| ensures RecordKept(f.packaging, ss[j], id) {
        RecordKeptOverRuns(f, ss, steps, 0, j, id);
      }
    }
    if forall j | 0 <= j < |ss| :: RecordKept(f.packaging, ss[j], id) {
      forall i | 0 <= i < |steps| ensures KeepsRecord(f, ss[i], steps[i], id) {
        RecordKeptByStepIff(f, ss[i], steps[i], ss[i + 1], id);
      }
    }
  }

  // ---- Bytes made elsewhere ----------------------------------------------------------------------

  lemma SupersedeCommitsIff(f: Format, s: System, op: nat, a: Action, base: Bytes)
    requires f.Lawful() && SystemInv(f, s) && CanStep(f, s, Commit(op, a))
    requires s.ops[op].plan.Supersede? && ValidClass(a.replace.preservationClass)
    requires s.ops[op].plan.expected == f.crypto.hash(base)
    ensures var row := s.ops[op].plan.row;
            Refusal(s.w.st, a).None? <==>
              && row in s.w.st.rows && !s.w.st.rows[row].status.Deleted? && !s.w.st.rows[row].kind.Source?
              && row in s.contents && s.contents[row] == base
  {
    var row := s.ops[op].plan.row;
    if row in s.w.st.rows {
      assert RowRecorded(f.crypto, s.w.st.rows[row], s.objs, s.contents[row]);
    }
  }

  lemma HeadHasDigest(f: Format, s: System, caller: Caller, root: Id, head: Document)
    requires SystemInv(f, s) && HeadShown(s.w.st, caller, root, head)
    ensures head.id in s.w.st.rows && head.id in s.contents && head.contentHash == f.crypto.hash(s.contents[head.id])
    ensures !s.w.st.rows[head.id].kind.Source?
  {
    HeadIsTheRow(s.w.st, caller, root, head);
    assert RowRecorded(f.crypto, s.w.st.rows[head.id], s.objs, s.contents[head.id]);
  }

  /** A replacement made elsewhere commits exactly when the row is still what it was, byte for
      byte, when the request read the head: a co-signature between the two makes it fail. */
  lemma SupersedeCommitsIffHeadUnmoved(
      f: Format, ss: seq<System>, steps: seq<Move>, h: nat, k: nat, i: nat, op: nat, caller: Caller, root: Id, head: Document,
      draw: Draw, data: Bytes, a: Action)
    requires f.Lawful() && IsSystemRun(f, ss, steps) && SystemInv(f, ss[0])
    requires h < k < i < |steps| && Waits(steps, op, h, k) && Waits(steps, op, k, i)
    requires steps[h] == ReadHead(op, caller, root, head) && steps[k] == StageSupersede(op, draw, data)
    requires steps[i] == Commit(op, a) && a.Replace? && ValidClass(a.replace.preservationClass)
    ensures head.id in ss[h].contents
    ensures var id := head.id;
            Refusal(ss[i].w.st, a).None? <==>
              && id in ss[i].w.st.rows && !ss[i].w.st.rows[id].status.Deleted? && !ss[i].w.st.rows[id].kind.Source?
              && id in ss[i].contents && ss[i].contents[id] == ss[h].contents[id]
  {
    SupersedeStaysStaged(f, ss, steps, h, k, i, op, caller, root, head, draw, data);
    ReachableSystemInv(f, ss, steps);
    HeadHasDigest(f, ss[h], caller, root, head);
    SupersedeCommitsIff(f, ss[i], op, a, ss[h].contents[head.id]);
  }

  lemma HeadIsTheRow(s: State, caller: Caller, root: Id, head: Document)
    requires HeadShown(s, caller, root, head) && Keyed(s.rows)
    ensures head.id in s.rows && head.contentHash == s.rows[head.id].contentHash && head.kind == s.rows[head.id].kind
    ensures !head.kind.Source?
  {}

  lemma SupersedeStaysStaged(
      f: Format, ss: seq<System>, steps: seq<Move>, h: nat, k: nat, i: nat, op: nat, caller: Caller, root: Id, head: Document,
      draw: Draw, data: Bytes)
    requires IsSystemRun(f, ss, steps)
    requires h < k < i <= |steps| && Waits(steps, op, h, k) && Waits(steps, op, k, i)
    requires steps[h] == ReadHead(op, caller, root, head) && steps[k] == StageSupersede(op, draw, data)
    ensures HeadShown(ss[h].w.st, caller, root, head)
    ensures op in ss[i].ops && ss[i].ops[op].Staged? && ss[i].ops[op].data == data
    ensures ss[i].ops[op].plan == Supersede(head.id, head.contentHash)
  {
    OpWaits(f, ss, steps, h, k, op);
    OpWaits(f, ss, steps, k, i, op);
  }

  // Made over these bytes: their data objects, and at least their signatures.
  ghost predicate MadeOver(p: Packaging, data: Bytes, base: Bytes) {
    p.dataObjects(data) == p.dataObjects(base) && p.signatures(base) <= p.signatures(data)
  }

  // Whatever the format, what is made over base keeps all there is in current.
  ghost predicate SafeOver(base: Bytes, current: Bytes) {
    forall p: Packaging, data: Bytes | p.Lawful() && MadeOver(p, data, base) :: MadeOver(p, data, current)
  }

  // A format in which every container is its own one signature, and nothing else can be done.
  const SEALS: Packaging :=
    Packaging.Packaging(b => None, b => None, b => {b}, files => None, (b, files) => None, (b, c) => None, (b, c) => None)

  lemma OnlyTheSameBytesAreSafe(base: Bytes, current: Bytes)
    ensures SafeOver(base, current) <==> base == current
  {
    assert SEALS.Lawful();
    if SafeOver(base, current) {
      assert MadeOver(SEALS, base, base);
      assert MadeOver(SEALS, base, current);
      assert current in SEALS.signatures(base);
    }
  }

  /** What the request could check when it reads the head, and does not: an accepted replacement
      made over some bytes is sure to keep all the container had exactly when those bytes have the
      digest just read. */
  lemma SupersedeIsSafeIff(f: Format, s: System, op: nat, a: Action, base: Bytes)
    requires f.Lawful() && SystemInv(f, s) && Succeeds(f, s, op, a) && s.ops[op].plan.Supersede?
    ensures var (row, expected) := (s.ops[op].plan.row, s.ops[op].plan.expected);
            && row in s.contents
            && (SafeOver(base, s.contents[row]) <==> f.crypto.hash(base) == expected)
  {
    SwapLands(f, s, op, a);
    var row := s.ops[op].plan.row;
    assert RowRecorded(f.crypto, s.w.st.rows[row], s.objs, s.contents[row]);
    OnlyTheSameBytesAreSafe(base, s.contents[row]);
  }

  lemma HeadsBytes(f: Format, s: System, op: nat, a: Action, base: Bytes)
    requires f.Lawful() && SystemInv(f, s) && Succeeds(f, s, op, a) && s.ops[op].plan.Supersede?
    requires f.crypto.hash(base) == s.ops[op].plan.expected
    ensures var row := s.ops[op].plan.row; row in s.w.st.rows && row in s.contents && s.contents[row] == base
  {
    SwapLands(f, s, op, a);
    var row := s.ops[op].plan.row;
    assert RowRecorded(f.crypto, s.w.st.rows[row], s.objs, s.contents[row]);
  }

  lemma OverHeadHas(p: Packaging, s: System, id: Id, data: Bytes, base: Bytes)
    requires RecordKept(p, s, id) && id in s.w.st.rows && id in s.contents && s.contents[id] == base && MadeOver(p, data, base)
    ensures id in s.log ==> Has(p, data, s.log[id])
  {}

  /** And when it is made over the bytes of that digest, the step is one that keeps the record. */
  lemma SupersedeOverHeadKeepsRecord(f: Format, s: System, op: nat, a: Action, base: Bytes)
    requires f.Lawful() && SystemInv(f, s) && Succeeds(f, s, op, a) && s.ops[op].plan.Supersede?
    requires RecordKept(f.packaging, s, s.ops[op].plan.row)
    requires MadeOver(f.packaging, s.ops[op].data, base) && f.crypto.hash(base) == s.ops[op].plan.expected
    ensures KeepsRecord(f, s, Commit(op, a), s.ops[op].plan.row)
  {
    HeadsBytes(f, s, op, a, base);
    OverHeadHas(f.packaging, s, s.ops[op].plan.row, s.ops[op].data, base);
  }

  // ---- What a merging request stored -----------------------------------------------------------------------

  // The bytes a row's object opens to.
  function BytesOf(c: Crypto, s: System, id: Id): Option<Bytes> {
    if id in s.w.st.rows && s.w.st.rows[id].storageRef in s.objs then
      c.Plain(s.objs[s.w.st.rows[id].storageRef], s.w.st.rows[id].encryptionKeyRef)
    else None
  }

  // A request that signs: it makes a container, or merges into one.
  ghost predicate Signs(s: System, plan: Plan) {
    match plan
    case CreateContainer(_, _, _) => true
    case MergeInto(row, _, _) => row in s.w.st.rows && s.w.st.rows[row].kind.Container?
    case Supersede(_, _) => false
    case OtherWrite => false
  }

  lemma SuccessIsEntered(f: Format, s: System, o: Op, id: Id, s': System)
    requires o.Staged? && Signs(s, o.plan) && Effected(f, s, o, id, s')
    ensures id in s'.log && RecordKept(f.packaging, s', id)
    ensures s'.log[id] == Entry(f.packaging.dataObjects(o.data), f.packaging.signatures(o.data))
  {}

  lemma SuccessIsLogged(f: Format, s: System, op: nat, a: Action)
    requires IdsIssued(s.w) && Succeeds(f, s, op, a) && Signs(s, s.ops[op].plan)
    ensures var (id, o, s') := (TargetOf(a), s.ops[op], Committed(f, s, op, a));
            && id in s'.log && RecordKept(f.packaging, s', id)
            && s'.log[id] == Entry(f.packaging.dataObjects(o.data), f.packaging.signatures(o.data))
  {
    CommitEffect(f, s, op, a);
    SuccessIsEntered(f, s, s.ops[op], TargetOf(a), Committed(f, s, op, a));
  }

  lemma PlanHeld(f: Format, s: System, op: nat)
    requires OpsSound(f, s) && op in s.ops && s.ops[op].Staged?
    ensures PlanHolds(f.packaging, s.ops[op].data, s.ops[op].plan)
  {
    assert OpSound(f, s.ops[op], s.objs, s.drawn);
  }

  lemma SuccessInRun(f: Format, s: System, op: nat, a: Action, s': System)
    requires SystemInv(f, s) && Succeeds(f, s, op, a) && Signs(s, s.ops[op].plan) && s' == After(f, s, Commit(op, a))
    ensures var (id, o) := (TargetOf(a), s.ops[op]);
            && id in s'.log && RecordKept(f.packaging, s', id) && PlanHolds(f.packaging, o.data, o.plan)
            && s'.log[id] == Entry(f.packaging.dataObjects(o.data), f.packaging.signatures(o.data))
  {
    SuccessIsLogged(f, s, op, a);
    PlanHeld(f, s, op);
  }

  lemma StoredHasRecord(f: Format, s: System, id: Id, o: Op)
    requires SystemInv(f, s) && RecordKept(f.packaging, s, id) && id in s.log
    requires o.Staged? && PlanHolds(f.packaging, o.data, o.plan)
    requires s.log[id].objects == f.packaging.dataObjects(o.data) && f.packaging.signatures(o.data) <= s.log[id].signatures
    ensures id in s.w.st.rows && s.w.st.rows[id].storageRef != NO_ID ==>
              && BytesOf(f.crypto, s, id).Some?
              && var data := BytesOf(f.crypto, s, id).value;
                 PlanHolds(f.packaging, data, o.plan) && f.packaging.signatures(o.data) <= f.packaging.signatures(data)
  {
    if id in s.w.st.rows {
      assert RowRecorded(f.crypto, s.w.st.rows[id], s.objs, s.contents[id]);
    }
  }

  /** For any number of signers in any interleaving, with lost create races, sweeps, bundles,
      rebundles and failures among them: as long as a container's row still has its bytes, they
      open to a container of which everything still holds that each request that succeeded on
      it set out to do, and with every signature it had when that request succeeded. All that is
      asked is that whoever superseded this container since did so with bytes that have its
      record; nothing is asked of other containers or of what went before. */
  lemma NoSignatureLost(f: Format, ss: seq<System>, steps: seq<Move>, i: nat, j: nat, op: nat, a: Action)
    requires f.Lawful() && IsSystemRun(f, ss, steps) && SystemInv(f, ss[0])
    requires i < j <= |steps| && steps[i] == Commit(op, a) && Succeeds(f, ss[i], op, a)
    requires Signs(ss[i], ss[i].ops[op].plan)
    requires forall k | i < k < j :: KeepsRecord(f, ss[k], steps[k], TargetOf(a))
    ensures var (id, o) := (TargetOf(a), ss[i].ops[op]);
            id in ss[j].w.st.rows && ss[j].w.st.rows[id].storageRef != NO_ID ==>
              && BytesOf(f.crypto, ss[j], id).Some?
              && var data := BytesOf(f.crypto, ss[j], id).value;
                 && PlanHolds(f.packaging, data, o.plan)
                 && f.packaging.signatures(o.data) <= f.packaging.signatures(data)
  {
    ReachableSystemInv(f, ss, steps);
    SuccessInRun(f, ss[i], op, a, ss[i + 1]);
    RecordKeptOverRuns(f, ss, steps, i + 1, j, TargetOf(a));
    StoredHasRecord(f, ss[j], TargetOf(a), ss[i].ops[op]);
  }

  lemma MergeStaysStaged(
      f: Format, ss: seq<System>, steps: seq<Move>, h: nat, i: nat, op: nat, draw: Draw)
    requires IsSystemRun(f, ss, steps)
    requires h < i <= |steps| && Waits(steps, op, h, i) && steps[h] == StageMerge(op, draw)
    ensures op in ss[h].ops && ss[h].ops[op].Fetched? && op in ss[i].ops && ss[i].ops[op].Staged?
    ensures var o := ss[h].ops[op];
            ss[i].ops[op].plan == MergeInto(o.doc.id, o.data, Added(f.packaging, o.job))
  {
    OpWaits(f, ss, steps, h, i, op);
  }

  /** Told from the request's side: what a co-signing request brought, and what the bytes it
      read had, is in the container from the moment its commit is accepted. */
  lemma CoSignatureNeverLost(
      f: Format, ss: seq<System>, steps: seq<Move>, h: nat, i: nat, j: nat, op: nat, draw: Draw, a: Action)
    requires f.Lawful() && IsSystemRun(f, ss, steps) && SystemInv(f, ss[0])
    requires h < i < j <= |steps| && Waits(steps, op, h, i)
    requires steps[h] == StageMerge(op, draw) && steps[i] == Commit(op, a) && Succeeds(f, ss[i], op, a)
    requires a.Replace? && a.replace.id in ss[i].w.st.rows && ss[i].w.st.rows[a.replace.id].kind.Container?
    requires forall k | i < k < j :: KeepsRecord(f, ss[k], steps[k], a.replace.id)
    ensures op in ss[h].ops && ss[h].ops[op].Fetched?
    ensures var (id, o) := (a.replace.id, ss[h].ops[op]);
            id in ss[j].w.st.rows && ss[j].w.st.rows[id].storageRef != NO_ID ==>
              && BytesOf(f.crypto, ss[j], id).Some?
              && var data := BytesOf(f.crypto, ss[j], id).value;
                 && f.packaging.signatures(o.data) + Added(f.packaging, o.job) <= f.packaging.signatures(data)
                 && f.packaging.dataObjects(data) == f.packaging.dataObjects(o.data)
  {
    MergeStaysStaged(f, ss, steps, h, i, op, draw);
    NoSignatureLost(f, ss, steps, i, j, op, a);
  }

  lemma CreateStaysStaged(
      f: Format, ss: seq<System>, steps: seq<Move>, h: nat, k: nat, i: nat, op: nat, draw: Draw)
    requires IsSystemRun(f, ss, steps) && h < k < i <= |steps|
    requires op in ss[h + 1].ops && ss[h + 1].ops[op].Fetched? && Waits(steps, op, h, k)
    requires steps[k] == StageCreate(op, draw) && Waits(steps, op, k, i)
    ensures var o := ss[h + 1].ops[op];
            && o.job.Complete? && op in ss[i].ops && ss[i].ops[op].Staged?
            && ss[i].ops[op].plan == CreateContainer(o.doc.id, o.job.fileless, File(o.doc.filename, o.data))
  {
    OpWaits(f, ss, steps, h, k, op);
    OpWaits(f, ss, steps, k, i, op);
  }

  /** A container made from a document holds that document's bytes, as they were read, and
      nothing else, with the first signature; and a source's digest keeps matching them. */
  lemma CompleteWrapsTheSource(
      f: Format, ss: seq<System>, steps: seq<Move>, g: nat, h: nat, k: nat, i: nat, j: nat,
      op: nat, id: Id, caller: Caller, fileless: Bytes, draw: Draw, a: Action)
    requires f.Lawful() && IsSystemRun(f, ss, steps) && SystemInv(f, ss[0])
    requires g < h < k < i < j <= |steps| && Waits(steps, op, g, h) && Waits(steps, op, h, k) && Waits(steps, op, k, i)
    requires steps[g] == ReadRow(op, id, caller, Complete(fileless)) && steps[h] == FetchObject(op)
    requires steps[k] == StageCreate(op, draw) && steps[i] == Commit(op, a) && a.Insert? && Succeeds(f, ss[i], op, a)
    requires forall n | i < n < j :: KeepsRecord(f, ss[n], steps[n], a.id)
    ensures id in ss[g].w.st.rows && id in ss[g].contents
    ensures var file := File(ss[g].w.st.rows[id].filename, ss[g].contents[id]);
            && (a.id in ss[j].w.st.rows && ss[j].w.st.rows[a.id].storageRef != NO_ID ==>
                  && BytesOf(f.crypto, ss[j], a.id).Some?
                  && var data := BytesOf(f.crypto, ss[j], a.id).value;
                     && f.packaging.dataObjects(data) == Some([file])
                     && f.packaging.signatures(fileless) <= f.packaging.signatures(data))
            && (id in ss[j].w.st.rows && ss[j].w.st.rows[id].kind.Source? ==>
                  ss[j].w.st.rows[id].contentHash == f.crypto.hash(file.data))
  {
    ReadHasDigest(f, ss, steps, g, id, caller, op, Complete(fileless));
    ContentIsOfTheRowRead(f, ss, steps, g, h, op, id, caller, Complete(fileless));
    FetchedForJob(f, ss, steps, g, h, op, id, caller, Complete(fileless));
    CreateStaysStaged(f, ss, steps, h, k, i, op, draw);
    CreateLands(f, ss[i], op, a);
    NoSignatureLost(f, ss, steps, i, j, op, a);
    SourceKeepsDigest(f, ss, steps, g, j, id);
  }

  lemma ReadHasDigest(
      f: Format, ss: seq<System>, steps: seq<Move>, g: nat, id: Id, caller: Caller, op: nat, job: Job)
    requires f.Lawful() && IsSystemRun(f, ss, steps) && SystemInv(f, ss[0])
    requires g < |steps| && steps[g] == ReadRow(op, id, caller, job)
    ensures id in ss[g].w.st.rows && id in ss[g].contents
    ensures ss[g].w.st.rows[id].contentHash == f.crypto.hash(ss[g].contents[id])
    ensures Reads.Get(ss[g].w.st, id, caller).Ok?
    ensures var doc := Reads.Get(ss[g].w.st, id, caller).value;
            doc.filename == ss[g].w.st.rows[id].filename && doc.id == id
  {
    ReachableSystemInv(f, ss, steps);
    assert RowRecorded(f.crypto, ss[g].w.st.rows[id], ss[g].objs, ss[g].contents[id]);
  }

  lemma FetchedForJob(
      f: Format, ss: seq<System>, steps: seq<Move>, g: nat, h: nat, op: nat, id: Id, caller: Caller, job: Job)
    requires IsSystemRun(f, ss, steps) && g < h < |steps| && Waits(steps, op, g, h)
    requires steps[g] == ReadRow(op, id, caller, job) && steps[h] == FetchObject(op)
    ensures op in ss[h + 1].ops && ss[h + 1].ops[op].Fetched? && ss[h + 1].ops[op].job == job
  {
    OpWaits(f, ss, steps, g, h, op);
  }
}
