/** What one request can do to another's bytes: an undisturbed signer always gets through, and
    a writer that does not merge may drop what a signer stored a moment before. */
module Races {
  import opened Types
  import opened Metadata
  import Reads
  import opened StoreRuns
  import opened ByteModel
  import opened Documents
  import opened Requests
  import opened Protocol
  import opened ProtocolSafety
  import opened ProtocolRuns
  import opened Signing

  // ---- Single writes --------------------------------------------------------------------------

  function SwapOf(f: Format, s: System, op: Op, id: Id, class_: string, now: Time): Action
    requires op.Staged? && id in s.w.st.rows
  {
    Replace(ReplaceInput(id, s.w.st.rows[id].contentHash, op.key, f.crypto.hash(op.data), |op.data|, op.keyRef, class_), now)
  }

  lemma StagedKeyIsUnreferenced(f: Format, s: System, op: nat)
    requires Owned(s) && OpsSound(f, s) && op in s.ops && s.ops[op].Staged?
    ensures s.ops[op].key != NO_ID && s.ops[op].keyRef != "" && s.ops[op].key !in LiveRefs(s.w.st.rows)
  {
    var key := s.ops[op].key;
    assert key in HeldKeys(s.ops[op]) && s.owner[key] == StagedBy(op);
    assert OpSound(f, s.ops[op], s.objs, s.drawn);
    forall id | id in s.w.st.rows ensures s.w.st.rows[id].storageRef != key {}
  }

  // The write was made for what the row is now: over its bytes, or over its digest.
  ghost predicate MadeForCurrent(s: System, plan: Plan, id: Id)
    requires id in s.w.st.rows
  {
    match plan
    case CreateContainer(_, _, _) => false
    case MergeInto(row, base, _) => row == id && id in s.contents && base == s.contents[id]
    case Supersede(row, expected) => row == id && expected == s.w.st.rows[id].contentHash
    case OtherWrite => false
  }

  lemma CurrentDigestIsEnough(f: Format, s: System, op: nat, id: Id, class_: string, now: Time)
    requires SystemInv(f, s) && op in s.ops && s.ops[op].Staged?
    requires id in s.w.st.rows && !s.w.st.rows[id].status.Deleted? && !s.w.st.rows[id].kind.Source?
    requires ValidClass(class_) && MadeForCurrent(s, s.ops[op].plan, id)
    ensures var (a, o) := (SwapOf(f, s, s.ops[op], id, class_, now), s.ops[op]);
            && Succeeds(f, s, op, a)
            && var s' := Committed(f, s, op, a);
               && s'.contents == s.contents[id := o.data]
               && s'.w.st == State(s.w.st.rows[id := ReplacedRow(s.w.st.rows[id], a.replace, now)], s.w.st.acl)
  {
    StagedKeyIsUnreferenced(f, s, op);
    assert RowRecorded(f.crypto, s.w.st.rows[id], s.objs, s.contents[id]);
  }

  // The steps can be taken one after the other from s, and end in t.
  ghost predicate Leads(f: Format, s: System, steps: seq<Move>, t: System) {
    exists ss :: IsSystemRun(f, ss, steps) && ss[0] == s && ss[|steps|] == t
  }

  lemma OneStep(f: Format, s: System, step: Move)
    requires CanStep(f, s, step)
    ensures Leads(f, s, [step], After(f, s, step))
  {
    var ss := [s, After(f, s, step)];
    assert IsSystemRun(f, ss, [step]);
  }

  lemma RunsJoin(f: Format, ss: seq<System>, steps: seq<Move>, tt: seq<System>, more: seq<Move>)
    requires IsSystemRun(f, ss, steps) && IsSystemRun(f, tt, more) && ss[|steps|] == tt[0]
    ensures IsSystemRun(f, ss + tt[1..], steps + more)
  {
    var all, moves := ss + tt[1..], steps + more;
    Joined(ss, tt, |steps|, |more|);
    forall i | 0 <= i < |moves| ensures CanStep(f, all[i], moves[i]) && all[i + 1] == After(f, all[i], moves[i]) {
      if i < |steps| {
        assert all[i] == ss[i] && all[i + 1] == ss[i + 1] && moves[i] == steps[i];
      } else {
        var j := i - |steps|;
        assert all[i] == tt[j] && all[i + 1] == tt[j + 1] && moves[i] == more[j];
      }
    }
  }

  lemma Joined(ss: seq<System>, tt: seq<System>, n: nat, m: nat)
    requires |ss| == n + 1 && |tt| == m + 1 && ss[n] == tt[0]
    ensures forall i | 0 <= i <= n :: (ss + tt[1..])[i] == ss[i]
    ensures forall i | n <= i <= n + m :: (ss + tt[1..])[i] == tt[i - n]
  {}

  lemma LeadsOn(f: Format, s: System, steps: seq<Move>, t: System, more: seq<Move>, u: System)
    requires Leads(f, s, steps, t) && Leads(f, t, more, u)
    ensures Leads(f, s, steps + more, u)
  {
    var ss :| IsSystemRun(f, ss, steps) && ss[0] == s && ss[|steps|] == t;
    var tt :| IsSystemRun(f, tt, more) && tt[0] == t && tt[|more|] == u;
    RunsJoin(f, ss, steps, tt, more);
    var all := ss + tt[1..];
    assert all[0] == s && all[|steps + more|] == u;
  }

  lemma Overwritten(ops: map<nat, Op>, op: nat, a: Op, b: Op)
    ensures ops[op := a][op := b] == ops[op := b]
  {}

  lemma InARow(a: Move, b: Move, c: Move, d: Move)
    ensures [a] + [b] == [a, b] && [a, b] + [c] == [a, b, c] && [a] + [b, c, d] == [a, b, c, d]
  {}

  lemma CommitGoesThrough(f: Format, s: System, op: nat, a: Action) returns (s': System)
    requires f.Lawful() && SystemInv(f, s) && CanStep(f, s, Commit(op, a))
    ensures Leads(f, s, [Commit(op, a)], s') && SystemInv(f, s') && s' == Committed(f, s, op, a)
    ensures op in s'.ops && s'.ops == s.ops[op := s'.ops[op]] && s'.drawn == s.drawn
  {
    OneStep(f, s, Commit(op, a));
    StepKeepsInv(f, s, Commit(op, a));
    s' := After(f, s, Commit(op, a));
  }

  lemma StageOtherGoesThrough(f: Format, s: System, op: nat, draw: Draw, data: Bytes) returns (s': System)
    requires f.Lawful() && SystemInv(f, s) && op !in s.ops && FreshKey(s, draw)
    ensures Leads(f, s, [StageOther(op, draw, data)], s') && SystemInv(f, s')
    ensures s'.w == s.w && s'.contents == s.contents && s'.drawn == s.drawn + {draw.objKey}
    ensures s'.ops == s.ops[op := Staged(draw.objKey, KeyRef(f.crypto, draw), data, OtherWrite)]
  {
    var step := StageOther(op, draw, data);
    OneStep(f, s, step);
    StepKeepsInv(f, s, step);
    s' := After(f, s, step);
  }

  // ---- An undisturbed co-signer ------------------------------------------------------------------

  ghost predicate ReadyToRead(s: System, id: Id, caller: Caller) {
    id in s.w.st.rows && MayRead(s.w.st, s.w.st.rows[id], caller) && !Terminal(s.w.st.rows[id].status)
  }

  lemma ReadGoesThrough(f: Format, s: System, op: nat, id: Id, caller: Caller, job: Job) returns (s': System, doc: Document)
    requires f.Lawful() && SystemInv(f, s) && op !in s.ops && ReadyToRead(s, id, caller)
    ensures Leads(f, s, [ReadRow(op, id, caller, job)], s') && SystemInv(f, s')
    ensures s' == s.(ops := s.ops[op := Reading(doc, job)]) && Reads.Get(s.w.st, id, caller) == Ok(doc)
    ensures doc.id == id && doc.kind == s.w.st.rows[id].kind && doc.storageRef in s.objs
    ensures id in s.contents && f.crypto.Plain(s.objs[doc.storageRef], doc.encryptionKeyRef) == Some(s.contents[id])
  {
    var step := ReadRow(op, id, caller, job);
    assert RowRecorded(f.crypto, s.w.st.rows[id], s.objs, s.contents[id]);
    OneStep(f, s, step);
    StepKeepsInv(f, s, step);
    s', doc := After(f, s, step), Reads.Get(s.w.st, id, caller).value;
  }

  lemma FetchGoesThrough(f: Format, s: System, op: nat, data: Bytes) returns (s': System)
    requires f.Lawful() && SystemInv(f, s) && op in s.ops && s.ops[op].Reading?
    requires s.ops[op].doc.storageRef in s.objs
    requires f.crypto.Plain(s.objs[s.ops[op].doc.storageRef], s.ops[op].doc.encryptionKeyRef) == Some(data)
    ensures Leads(f, s, [FetchObject(op)], s') && SystemInv(f, s')
    ensures s' == s.(ops := s.ops[op := Fetched(s.ops[op].doc, data, s.ops[op].job)])
  {
    var step := FetchObject(op);
    OneStep(f, s, step);
    StepKeepsInv(f, s, step);
    s' := After(f, s, step);
  }

  lemma StageMergeGoesThrough(f: Format, s: System, op: nat, draw: Draw) returns (s': System)
    requires f.Lawful() && SystemInv(f, s) && op in s.ops && s.ops[op].Fetched? && FreshKey(s, draw)
    requires Merged(f.packaging, s.ops[op].doc, s.ops[op].data, s.ops[op].job).Some?
    ensures Leads(f, s, [StageMerge(op, draw)], s') && SystemInv(f, s')
    ensures s'.w == s.w && s'.contents == s.contents && s'.drawn == s.drawn + {draw.objKey}
    ensures var o := s.ops[op];
            s'.ops == s.ops[op := Staged(draw.objKey, KeyRef(f.crypto, draw), Merged(f.packaging, o.doc, o.data, o.job).value,
                                         MergeInto(o.doc.id, o.data, Added(f.packaging, o.job)))]
  {
    var step := StageMerge(op, draw);
    OneStep(f, s, step);
    StepKeepsInv(f, s, step);
    s' := After(f, s, step);
  }

  // The row is read and its bytes fetched with nothing in between.
  lemma ContentGoesThrough(f: Format, s: System, op: nat, id: Id, caller: Caller, job: Job) returns (s': System, doc: Document)
    requires f.Lawful() && SystemInv(f, s) && op !in s.ops && ReadyToRead(s, id, caller)
    ensures Leads(f, s, [ReadRow(op, id, caller, job), FetchObject(op)], s') && SystemInv(f, s')
    ensures Reads.Get(s.w.st, id, caller) == Ok(doc) && doc.id == id && doc.kind == s.w.st.rows[id].kind && id in s.contents
    ensures s' == s.(ops := s.ops[op := Fetched(doc, s.contents[id], job)])
  {
    var s1;
    s1, doc := ReadGoesThrough(f, s, op, id, caller, job);
    s' := FetchGoesThrough(f, s1, op, s.contents[id]);
    Overwritten(s.ops, op, Reading(doc, job), Fetched(doc, s.contents[id], job));
    LeadsOn(f, s, [ReadRow(op, id, caller, job)], s1, [FetchObject(op)], s');
    InARow(ReadRow(op, id, caller, job), FetchObject(op), FetchObject(op), FetchObject(op));
  }

  // The request's container of the bytes the row has now.
  function MergedNow(f: Format, s: System, id: Id, caller: Caller, job: Job): Option<Bytes> {
    if id in s.contents && Reads.Get(s.w.st, id, caller).Ok? then
      Merged(f.packaging, Reads.Get(s.w.st, id, caller).value, s.contents[id], job)
    else None
  }

  /** A co-signer nobody gets in the way of succeeds: if the container can be read and the merge
      can be made, its four steps can be taken, and the container then holds the merge. */
  lemma UndisturbedCoSignSucceeds(
      f: Format, s: System, op: nat, id: Id, caller: Caller, job: Job, draw: Draw, now: Time)
      returns (t: System, a: Action, u: System)
    requires f.Lawful() && SystemInv(f, s) && op !in s.ops && FreshKey(s, draw)
    requires ReadyToRead(s, id, caller) && s.w.st.rows[id].kind.Container? && MergedNow(f, s, id, caller, job).Some?
    ensures Leads(f, s, [ReadRow(op, id, caller, job), FetchObject(op), StageMerge(op, draw)], t) && SystemInv(f, t)
    ensures Succeeds(f, t, op, a) && Leads(f, t, [Commit(op, a)], u) && SystemInv(f, u)
    ensures u.contents == s.contents[id := MergedNow(f, s, id, caller, job).value] && u.drawn == s.drawn + {draw.objKey}
    ensures id in u.w.st.rows && u.w.st.rows[id].kind.Container? && u.w.st.rows[id].status.Signed?
    ensures op in u.ops && u.ops == s.ops[op := u.ops[op]] && ReadyToRead(u, id, caller)
    ensures BytesOf(f.crypto, u, id) == MergedNow(f, s, id, caller, job)
  {
    var s2, doc := ContentGoesThrough(f, s, op, id, caller, job);
    t := StageMergeGoesThrough(f, s2, op, draw);
    LeadsOn(f, s, [ReadRow(op, id, caller, job), FetchObject(op)], s2, [StageMerge(op, draw)], t);
    InARow(ReadRow(op, id, caller, job), FetchObject(op), StageMerge(op, draw), FetchObject(op));
    a, u := SwapGoesThrough(f, t, op, id, "", now);
    StoredBytes(f, u, id);
    Overwritten(s.ops, op, s2.ops[op], t.ops[op]);
    Overwritten(s.ops, op, t.ops[op], u.ops[op]);
  }

  lemma SwapGoesThrough(f: Format, s: System, op: nat, id: Id, class_: string, now: Time) returns (a: Action, s': System)
    requires f.Lawful() && SystemInv(f, s) && op in s.ops && s.ops[op].Staged?
    requires id in s.w.st.rows && !s.w.st.rows[id].status.Deleted? && !s.w.st.rows[id].kind.Source?
    requires ValidClass(class_) && MadeForCurrent(s, s.ops[op].plan, id)
    ensures Succeeds(f, s, op, a) && a == SwapOf(f, s, s.ops[op], id, class_, now)
    ensures Leads(f, s, [Commit(op, a)], s') && SystemInv(f, s')
    ensures s'.contents == s.contents[id := s.ops[op].data] && s'.drawn == s.drawn
    ensures s'.w.st == State(s.w.st.rows[id := ReplacedRow(s.w.st.rows[id], a.replace, now)], s.w.st.acl)
    ensures op in s'.ops && s'.ops == s.ops[op := s'.ops[op]]
  {
    CurrentDigestIsEnough(f, s, op, id, class_, now);
    a := SwapOf(f, s, s.ops[op], id, class_, now);
    s' := CommitGoesThrough(f, s, op, a);
  }

  // ---- An undisturbed first signer -----------------------------------------------------------------

  lemma InsertGoesThrough(f: Format, s: System, op: nat, ttl: int, input: IngestInput, draw: Draw, id: Id, now: Time)
      returns (a: Action, s': System)
    requires f.Lawful() && SystemInv(f, s) && op in s.ops && s.ops[op].Staged?
    requires s.ops[op].key == draw.objKey && s.ops[op].keyRef == KeyRef(f.crypto, draw) && s.ops[op].data == input.data
    requires input.ownerKind != Some(Serial)
    requires var i := IngestAction(f.crypto, f.packaging, ttl, input, draw, id, now).insert;
             && !Terminal(StatusOf(i)) && (i.parentId == NO_ID || i.parentId in s.w.issued)
             && (KindOf(i).Source? || i.parentId == NO_ID ||
                 forall x | x in s.w.st.rows :: !Blocks(s.w.st.rows[x], KindOf(i), i.parentId))
             && match s.ops[op].plan
                case OtherWrite => true
                case MergeInto(_, _, _) => false
                case Supersede(_, _) => false
                case CreateContainer(p, _, _) => KindOf(i).Container? && i.parentId == p && StatusOf(i).Signed?
    requires id != NO_ID && id !in s.w.issued
    ensures a == IngestAction(f.crypto, f.packaging, ttl, input, draw, id, now) && Succeeds(f, s, op, a)
    ensures Leads(f, s, [Commit(op, a)], s') && SystemInv(f, s')
    ensures s'.w == World(Inserted(s.w.st, a.insert, id, now), s.w.issued + {id})
    ensures s'.contents == s.contents[id := s.ops[op].data] && s'.drawn == s.drawn
    ensures op in s'.ops && s'.ops == s.ops[op := s'.ops[op]]
  {
    StagedKeyIsUnreferenced(f, s, op);
    a := IngestAction(f.crypto, f.packaging, ttl, input, draw, id, now);
    s' := CommitGoesThrough(f, s, op, a);
  }

  lemma StageCreateGoesThrough(f: Format, s: System, op: nat, draw: Draw) returns (s': System)
    requires f.Lawful() && SystemInv(f, s) && op in s.ops && s.ops[op].Fetched? && FreshKey(s, draw)
    requires NewContainer(f.packaging, s.ops[op].doc, s.ops[op].data, s.ops[op].job).Some?
    ensures Leads(f, s, [StageCreate(op, draw)], s') && SystemInv(f, s')
    ensures s'.w == s.w && s'.contents == s.contents && s'.drawn == s.drawn + {draw.objKey}
    ensures var o := s.ops[op];
            s'.ops == s.ops[op := Staged(draw.objKey, KeyRef(f.crypto, draw), NewContainer(f.packaging, o.doc, o.data, o.job).value,
                                         CreateContainer(o.doc.id, o.job.fileless, File(o.doc.filename, o.data)))]
  {
    var step := StageCreate(op, draw);
    OneStep(f, s, step);
    StepKeepsInv(f, s, step);
    s' := After(f, s, step);
  }

  lemma CompleteIsStaged(f: Format, s: System, op: nat, id: Id, caller: Caller, fileless: Bytes, draw: Draw) returns (t: System)
    requires f.Lawful() && SystemInv(f, s) && op !in s.ops && FreshKey(s, draw)
    requires ReadyToRead(s, id, caller) && !s.w.st.rows[id].kind.Container? && id in s.contents
    requires f.packaging.complete(fileless, [File(s.w.st.rows[id].filename, s.contents[id])]).Some?
    ensures Leads(f, s, [ReadRow(op, id, caller, Complete(fileless)), FetchObject(op), StageCreate(op, draw)], t) && SystemInv(f, t)
    ensures t.w == s.w && t.contents == s.contents && t.drawn == s.drawn + {draw.objKey}
    ensures op in t.ops && t.ops == s.ops[op := t.ops[op]] && t.ops[op].Staged?
    ensures t.ops[op].plan.CreateContainer? && t.ops[op].plan.parent == id
    ensures t.ops[op].key == draw.objKey && t.ops[op].keyRef == KeyRef(f.crypto, draw)
    ensures t.ops[op].data == f.packaging.complete(fileless, [File(s.w.st.rows[id].filename, s.contents[id])]).value
  {
    var read := ReadRow(op, id, caller, Complete(fileless));
    var s2, doc := ContentGoesThrough(f, s, op, id, caller, Complete(fileless));
    t := StageCreateGoesThrough(f, s2, op, draw);
    LeadsOn(f, s, [read, FetchObject(op)], s2, [StageCreate(op, draw)], t);
    InARow(read, FetchObject(op), StageCreate(op, draw), FetchObject(op));
    Overwritten(s.ops, op, s2.ops[op], t.ops[op]);
  }

  // The completed container of the bytes the document has now.
  function CompletedNow(f: Format, s: System, id: Id, fileless: Bytes): Option<Bytes> {
    if id in s.w.st.rows && id in s.contents then
      f.packaging.complete(fileless, [File(s.w.st.rows[id].filename, s.contents[id])])
    else None
  }

  /** A first signer nobody gets in the way of succeeds: if the document can be read, has no live
      container yet and can be completed, four steps can be taken after which a signed container
      with the completed bytes hangs below it. */
  lemma UndisturbedCompleteSucceeds(
      f: Format, s: System, op: nat, ttl: int, id: Id, caller: Caller, fileless: Bytes, filename: string, draw: Draw, newId: Id,
      now: Time)
      returns (t: System, a: Action, u: System)
    requires f.Lawful() && SystemInv(f, s) && op !in s.ops && FreshKey(s, draw)
    requires ReadyToRead(s, id, caller) && !s.w.st.rows[id].kind.Container? && CompletedNow(f, s, id, fileless).Some?
    requires Reads.ContainersOf(s.w.st.rows, id) == {} && newId != NO_ID && newId !in s.w.issued
    ensures Leads(f, s, [ReadRow(op, id, caller, Complete(fileless)), FetchObject(op), StageCreate(op, draw)], t) && SystemInv(f, t)
    ensures var input := ContainerInput(caller, id, filename, s.w.st.rows[id].preservationClass, CompletedNow(f, s, id, fileless).value);
            a == IngestAction(f.crypto, f.packaging, ttl, input, draw, newId, now)
    ensures Succeeds(f, t, op, a) && Leads(f, t, [Commit(op, a)], u) && SystemInv(f, u)
    ensures u.contents == s.contents[newId := CompletedNow(f, s, id, fileless).value]
    ensures u.w.st.rows == s.w.st.rows[newId := NewRow(a.insert, newId, now)] && u.w.st.acl == s.w.st.acl
    ensures u.drawn == s.drawn + {draw.objKey} && op in u.ops && u.ops == s.ops[op := u.ops[op]]
  {
    t := CompleteIsStaged(f, s, op, id, caller, fileless, draw);
    NothingBlocks(s.w.st.rows, id);
    IssuedRow(f, s, id);
    var input := ContainerInput(caller, id, filename, s.w.st.rows[id].preservationClass, CompletedNow(f, s, id, fileless).value);
    a, u := InsertGoesThrough(f, t, op, ttl, input, draw, newId, now);
    Overwritten(s.ops, op, t.ops[op], u.ops[op]);
  }

  lemma NothingBlocks(rows: map<Id, Document>, parent: Id)
    requires Reads.ContainersOf(rows, parent) == {}
    ensures forall x | x in rows :: !Blocks(rows[x], Container, parent)
  {
    forall x | x in rows ensures !Blocks(rows[x], Container, parent) {
      assert x !in Reads.ContainersOf(rows, parent);
    }
  }

  lemma IssuedRow(f: Format, s: System, id: Id)
    requires SystemInv(f, s) && id in s.w.st.rows
    ensures id in s.w.issued && id != NO_ID
  {}

  lemma UploadSucceeds(
      f: Format, s: System, op: nat, ttl: int, draw: Draw, data: Bytes, owner: string, filename: string, id: Id, now: Time)
      returns (t: System, a: Action, u: System)
    requires f.Lawful() && SystemInv(f, s) && op !in s.ops && FreshKey(s, draw) && id != NO_ID && id !in s.w.issued
    requires f.packaging.inspect(data).None?
    ensures Leads(f, s, [StageOther(op, draw, data)], t) && Succeeds(f, t, op, a) && Leads(f, t, [Commit(op, a)], u)
    ensures a == IngestAction(f.crypto, f.packaging, ttl, UploadInput(owner, filename, data), draw, id, now)
    ensures SystemInv(f, u) && u.w.issued == s.w.issued + {id}
    ensures u.w.st == State(s.w.st.rows[id := NewRow(a.insert, id, now)], s.w.st.acl + [Grant(id, Sub, owner, [Read, CoSign])])
    ensures u.contents == s.contents[id := data] && u.drawn == s.drawn + {draw.objKey}
    ensures op in u.ops && u.ops == s.ops[op := u.ops[op]]
  {
    t := StageOtherGoesThrough(f, s, op, draw, data);
    a, u := InsertGoesThrough(f, t, op, ttl, UploadInput(owner, filename, data), draw, id, now);
    Overwritten(s.ops, op, t.ops[op], u.ops[op]);
  }

  // ---- A refresh made over older bytes --------------------------------------------------------------

  lemma ReadHeadGoesThrough(f: Format, s: System, op: nat, id: Id, caller: Caller) returns (s': System, head: Document)
    requires f.Lawful() && SystemInv(f, s) && op !in s.ops && ReadyToRead(s, id, caller) && !s.w.st.rows[id].kind.Source?
    ensures Leads(f, s, [ReadHead(op, caller, NO_ID, head)], s') && SystemInv(f, s')
    ensures Reads.Get(s.w.st, id, caller) == Ok(head)
    ensures s' == s.(ops := s.ops[op := HeadRead(id, s.w.st.rows[id].contentHash)])
  {
    head := Reads.Get(s.w.st, id, caller).value;
    var step := ReadHead(op, caller, NO_ID, head);
    OneStep(f, s, step);
    StepKeepsInv(f, s, step);
    s' := After(f, s, step);
  }

  lemma StageSupersedeGoesThrough(f: Format, s: System, op: nat, draw: Draw, data: Bytes) returns (s': System)
    requires f.Lawful() && SystemInv(f, s) && op in s.ops && s.ops[op].HeadRead? && FreshKey(s, draw)
    ensures Leads(f, s, [StageSupersede(op, draw, data)], s') && SystemInv(f, s')
    ensures s'.w == s.w && s'.contents == s.contents && s'.drawn == s.drawn + {draw.objKey}
    ensures s'.ops == s.ops[op := Staged(draw.objKey, KeyRef(f.crypto, draw), data, Supersede(s.ops[op].row, s.ops[op].expected))]
  {
    var step := StageSupersede(op, draw, data);
    OneStep(f, s, step);
    StepKeepsInv(f, s, step);
    s' := After(f, s, step);
  }

  /** A replacement made elsewhere that nobody gets in the way of succeeds, whatever its bytes: the
      digest is read inside the request, and nothing compares it with what the bytes were made
      over. */
  lemma UndisturbedSupersedeSucceeds(
      f: Format, s: System, op: nat, id: Id, caller: Caller, draw: Draw, data: Bytes, class_: string, now: Time)
      returns (head: Document, t: System, a: Action, u: System)
    requires f.Lawful() && SystemInv(f, s) && op !in s.ops && FreshKey(s, draw) && ValidClass(class_)
    requires ReadyToRead(s, id, caller) && !s.w.st.rows[id].kind.Source?
    ensures Leads(f, s, [ReadHead(op, caller, NO_ID, head), StageSupersede(op, draw, data)], t) && Succeeds(f, t, op, a)
    ensures Leads(f, t, [Commit(op, a)], u) && SystemInv(f, u) && Reads.Get(s.w.st, id, caller) == Ok(head)
    ensures u.contents == s.contents[id := data] && a.Replace? && a.replace.id == id
    ensures u.w.st.rows == s.w.st.rows[id := ReplacedRow(s.w.st.rows[id], a.replace, now)]
    ensures BytesOf(f.crypto, u, id) == Some(data)
  {
    var s1;
    s1, head := ReadHeadGoesThrough(f, s, op, id, caller);
    t := StageSupersedeGoesThrough(f, s1, op, draw, data);
    LeadsOn(f, s, [ReadHead(op, caller, NO_ID, head)], s1, [StageSupersede(op, draw, data)], t);
    InARow(ReadHead(op, caller, NO_ID, head), StageSupersede(op, draw, data), FetchObject(op), FetchObject(op));
    a, u := SwapGoesThrough(f, t, op, id, class_, now);
    StoredBytes(f, u, id);
  }

  lemma StillFresh(s: System, u: System, draw: Draw, next: Draw)
    requires FreshKey(s, next) && u.drawn == s.drawn + {draw.objKey} && draw.objKey != next.objKey
    ensures FreshKey(u, next)
  {}

  /** An archiver has downloaded a container's bytes; a co-signature is accepted; the archiver's
      refresh of the bytes it downloaded arrives. It reads the head after the co-signature, is
      accepted, and the container is back to the bytes from before. It can happen to any container
      and any co-signature. */
  lemma StaleRefreshUndoesACoSignature(
      f: Format, s: System, reader: nat, op: nat, refresh: nat, id: Id, caller: Caller, job: Job, draw: Draw, refreshDraw: Draw,
      class_: string, now: Time)
      returns (t: System, a: Action, u: System, head: Document, v: System, b: Action, z: System)
    requires f.Lawful() && SystemInv(f, s) && op !in s.ops && refresh !in s.ops && op != refresh
    requires FreshKey(s, draw) && FreshKey(s, refreshDraw) && draw.objKey != refreshDraw.objKey
    requires ReadyToRead(s, id, caller) && s.w.st.rows[id].kind.Container? && MergedNow(f, s, id, caller, job).Some?
    requires ValidClass(class_)
    requires reader in s.ops && s.ops[reader].Fetched? && id in s.contents && s.ops[reader].data == s.contents[id]
    ensures Leads(f, s, [ReadRow(op, id, caller, job), FetchObject(op), StageMerge(op, draw)], t)
    ensures Succeeds(f, t, op, a) && Leads(f, t, [Commit(op, a)], u)
    ensures BytesOf(f.crypto, u, id) == MergedNow(f, s, id, caller, job)
    ensures Leads(f, u, [ReadHead(refresh, caller, NO_ID, head), StageSupersede(refresh, refreshDraw, s.ops[reader].data)], v)
    ensures Succeeds(f, v, refresh, b) && Leads(f, v, [Commit(refresh, b)], z)
    ensures BytesOf(f.crypto, z, id) == Some(s.ops[reader].data)
  {
    t, a, u := UndisturbedCoSignSucceeds(f, s, op, id, caller, job, draw, now);
    StillFresh(s, u, draw, refreshDraw);
    head, v, b, z := UndisturbedSupersedeSucceeds(f, u, refresh, id, caller, refreshDraw, s.ops[reader].data, class_, now);
  }

  lemma StoredBytes(f: Format, s: System, id: Id)
    requires SystemInv(f, s) && id in s.w.st.rows && !Terminal(s.w.st.rows[id].status)
    ensures id in s.contents && BytesOf(f.crypto, s, id) == Some(s.contents[id])
  {
    assert RowRecorded(f.crypto, s.w.st.rows[id], s.objs, s.contents[id]);
  }

  // ---- A bundle and its sources ----------------------------------------------------------------------

  /** A bundle reads each source in two steps, like any download, and absorbs them later. What it
      packed of a source is what goes with the source's row exactly when nobody changed the
      row's digest in between, which nobody can when it is a plain source. */
  lemma PackedIsAbsorbedIff(
      f: Format, ss: seq<System>, steps: seq<Move>, g: nat, h: nat, i: nat, reader: nat, id: Id, op: nat, a: Action)
    requires f.Lawful() && IsSystemRun(f, ss, steps) && SystemInv(f, ss[0])
    requires g < h < i < |steps| && Waits(steps, reader, g, h)
    requires a.Bundle? && id in a.bundle.sourceIds && steps[i] == Commit(op, a) && Succeeds(f, ss[i], op, a)
    requires steps[g] == ReadRow(reader, id, Caller(a.bundle.owner, "", "", ""), Download) && steps[h] == FetchObject(reader)
    ensures id in ss[g].w.st.rows && id in ss[i].w.st.rows && id in ss[i].contents
    ensures reader in ss[h + 1].ops && ss[h + 1].ops[reader].Fetched?
    ensures var packed := ss[h + 1].ops[reader].data;
            && (packed == ss[i].contents[id] <==> ss[i].w.st.rows[id].contentHash == ss[g].w.st.rows[id].contentHash)
            && (ss[g].w.st.rows[id].kind.Source? ==> packed == ss[i].contents[id])
  {
    ContentIsOfTheRowRead(f, ss, steps, g, h, reader, id, Caller(a.bundle.owner, "", "", ""), Download);
    ReachableSystemInv(f, ss, steps);
    AbsorbedIsThere(ss[i].w.st, a, id);
    SourceKeepsDigest(f, ss, steps, g, i, id);
    assert RowRecorded(f.crypto, ss[g].w.st.rows[id], ss[g].objs, ss[g].contents[id]);
    assert RowRecorded(f.crypto, ss[i].w.st.rows[id], ss[i].objs, ss[i].contents[id]);
  }

  lemma AbsorbedIsThere(s: State, a: Action, id: Id)
    requires a.Bundle? && Refusal(s, a).None? && id in a.bundle.sourceIds
    ensures id in s.rows && AbsorbRefusal(s.rows, id, a.bundle.owner).None?
  {
    NoFault(s.rows, a.bundle.sourceIds, 0, a.bundle.owner, true);
  }

  // The bundle's owner could read every source, and the sources are in order.
  ghost predicate HasRead(s: System, bundle: BundleInput) {
    && BundleRefusal(s.w.st, bundle).None?
    && forall id | id in bundle.sourceIds ::
         id in s.w.st.rows && MayRead(s.w.st, s.w.st.rows[id], Caller(bundle.owner, "", "", ""))
  }

  // After these steps the bundle is still accepted, but the k-th source has other bytes.
  ghost predicate Overtakes(f: Format, s: System, bundle: BundleInput, steps: seq<Move>, t: System, k: nat) {
    && Leads(f, s, steps, t) && BundleRefusal(t.w.st, bundle).None? && k < |bundle.sourceIds|
    && var id := bundle.sourceIds[k];
       id in s.contents && id in t.contents && t.contents[id] != s.contents[id]
  }

  lemma SignedSourceCanBeOvertaken(f: Format, s: System, bundle: BundleInput, k: nat) returns (steps: seq<Move>, t: System)
    requires f.Lawful() && SystemInv(f, s) && HasRead(s, bundle)
    requires k < |bundle.sourceIds| && !s.w.st.rows[bundle.sourceIds[k]].kind.Source?
    ensures Overtakes(f, s, bundle, steps, t, k)
  {
    var id := bundle.sourceIds[k];
    NoFault(s.w.st.rows, bundle.sourceIds, 0, bundle.owner, true);
    StoredBytes(f, s, id);
    var op := AnIdleOp(s.ops);
    var key := AnUnusedKey(s.drawn);
    var draw, data, caller := Draw(key, [], [], []), s.contents[id] + [0], Caller(bundle.owner, "", "", "");
    var head, t1, a;
    head, t1, a, t := UndisturbedSupersedeSucceeds(f, s, op, id, caller, draw, data, "", 0);
    steps := [ReadHead(op, caller, NO_ID, head), StageSupersede(op, draw, data)] + [Commit(op, a)];
    LeadsOn(f, s, [ReadHead(op, caller, NO_ID, head), StageSupersede(op, draw, data)], t1, [Commit(op, a)], t);
    StillAccepted(s.w.st, t.w.st, a.replace, bundle);
  }

  lemma StillAccepted(s: State, t: State, input: ReplaceInput, bundle: BundleInput)
    requires input.id in s.rows && s.rows[input.id].status.Signed? && BundleRefusal(s, bundle).None?
    requires t.rows == s.rows[input.id := ReplacedRow(s.rows[input.id], input, 0)]
    ensures BundleRefusal(t, bundle).None?
  {
    FaultsIgnoreBytes(s.rows, bundle.sourceIds, 0, bundle.owner, true, input, 0);
  }

  lemma PlainSourceCannotBeOvertaken(f: Format, s: System, bundle: BundleInput, steps: seq<Move>, t: System, k: nat)
    requires f.Lawful() && SystemInv(f, s) && BundleRefusal(s.w.st, bundle).None? && Overtakes(f, s, bundle, steps, t, k)
    ensures bundle.sourceIds[k] in s.w.st.rows && !s.w.st.rows[bundle.sourceIds[k]].kind.Source?
  {
    var id := bundle.sourceIds[k];
    NoFault(s.w.st.rows, bundle.sourceIds, 0, bundle.owner, true);
    NoFault(t.w.st.rows, bundle.sourceIds, 0, bundle.owner, true);
    var ss :| IsSystemRun(f, ss, steps) && ss[0] == s && ss[|steps|] == t;
    if s.w.st.rows[id].kind.Source? {
      SourceBytesNeverChange(f, ss, steps, 0, |steps|, id);
    }
  }

  /** A bundle whose sources are in order when it has read them can be overtaken, that is, be
      accepted later over other bytes than those it packed, exactly when one of its sources is
      not a plain source. */
  lemma BundleIsOvertakenIff(f: Format, s: System, bundle: BundleInput)
    requires f.Lawful() && SystemInv(f, s) && HasRead(s, bundle)
    ensures (exists steps, t, k :: Overtakes(f, s, bundle, steps, t, k)) <==>
            (exists id | id in bundle.sourceIds :: !s.w.st.rows[id].kind.Source?)
  {
    if steps, t, k :| Overtakes(f, s, bundle, steps, t, k) {
      PlainSourceCannotBeOvertaken(f, s, bundle, steps, t, k);
    }
    if id :| id in bundle.sourceIds && !s.w.st.rows[id].kind.Source? {
      var k :| 0 <= k < |bundle.sourceIds| && bundle.sourceIds[k] == id;
      var steps, t := SignedSourceCanBeOvertaken(f, s, bundle, k);
    }
  }

  // There is always another request to come, and another key to draw.
  lemma {:induction false} AnIdleOp(ops: map<nat, Op>) returns (op: nat)
    ensures op !in ops && forall o | o in ops :: o < op
    decreases |ops|
  {
    if ops == map[] {
      op := 0;
    } else {
      var o :| o in ops;
      var above := AnIdleOp(ops - {o});
      op := if above <= o then o + 1 else above;
      assert forall x | x in ops && x != o :: x in ops - {o};
    }
  }

  lemma {:induction false} AnUnusedKey(drawn: set<Id>) returns (key: Id)
    ensures key !in drawn && key != NO_ID && forall k | k in drawn :: |k| < |key|
    decreases |drawn|
  {
    if drawn == {} {
      key := "k";
    } else {
      var k :| k in drawn;
      var longer := AnUnusedKey(drawn - {k});
      key := longer + k;
    }
  }

  // ---- From the empty system -----------------------------------------------------------------------

  const UPLOADER: Caller := Caller("owner", "", "", "")

  function Plainly(key: Id): Draw { Draw(key, [], [], []) }

  lemma UploaderReads(st: State, id: Id)
    requires Grant("s", Sub, "owner", [Read, CoSign]) in st.acl && id in st.rows && ChainRootId(st.rows[id]) == "s"
    ensures MayRead(st, st.rows[id], UPLOADER)
  {
    var g := Grant("s", Sub, "owner", [Read, CoSign]);
    assert HeldBy(g, "s", UPLOADER) && Read in g.rights;
  }

  // A document of the uploader's, and nothing else.
  ghost predicate HoldsUpload(u: System, data: Bytes) {
    && u.w.st.rows.Keys == {"s"} && u.w.issued == {"s"} && u.contents == map["s" := data]
    && Grant("s", Sub, "owner", [Read, CoSign]) in u.w.st.acl && u.drawn == {"k0"} && u.ops.Keys == {0}
    && var d := u.w.st.rows["s"];
       d.id == "s" && d.kind.Source? && d.parentId == NO_ID && d.filename == "f" && !Terminal(d.status)
  }

  lemma UploadHeld(u: System, data: Bytes, input: InsertInput)
    requires KindOf(input).Source? && StatusOf(input).Received? && input.parentId == NO_ID && input.filename == "f"
    requires u.w.st == State(map["s" := NewRow(input, "s", 1)], [Grant("s", Sub, "owner", [Read, CoSign])])
    requires u.w.issued == {"s"} && u.contents == map["s" := data] && u.drawn == {"k0"} && u.ops.Keys == {0}
    ensures HoldsUpload(u, data)
  {}

  lemma AnUpload(f: Format, data: Bytes) returns (steps: seq<Move>, u: System)
    requires f.Lawful() && f.packaging.inspect(data).None?
    ensures Leads(f, INITIAL, steps, u) && SystemInv(f, u) && HoldsUpload(u, data)
  {
    InitialInv(f);
    var t, a;
    t, a, u := UploadSucceeds(f, INITIAL, 0, 90, Plainly("k0"), data, "owner", "f", "s", 1);
    UploadHeld(u, data, a.insert);
    LeadsOn(f, INITIAL, [StageOther(0, Plainly("k0"), data)], t, [Commit(0, a)], u);
    steps := [StageOther(0, Plainly("k0"), data)] + [Commit(0, a)];
  }

  // The document's container with a first signature.
  ghost predicate HoldsFirstSignature(u: System, first: Bytes) {
    && "c" in u.w.st.rows && "c" in u.contents && u.contents["c"] == first
    && u.drawn == {"k0", "k1"} && u.ops.Keys <= {0, 1, 3}
    && Grant("s", Sub, "owner", [Read, CoSign]) in u.w.st.acl
    && var d := u.w.st.rows["c"]; d.id == "c" && d.kind.Container? && d.parentId == "s" && d.status.Signed?
  }

  lemma ReadyToComplete(s: System, data: Bytes)
    requires HoldsUpload(s, data)
    ensures ReadyToRead(s, "s", UPLOADER) && Reads.ContainersOf(s.w.st.rows, "s") == {}
  {
    UploaderReads(s.w.st, "s");
  }

  lemma FirstSignatureHeld(s: System, u: System, data: Bytes, input: InsertInput, first: Bytes)
    requires HoldsUpload(s, data) && KindOf(input).Container? && StatusOf(input).Signed? && input.parentId == "s"
    requires u.contents == s.contents["c" := first] && u.drawn == s.drawn + {"k1"} && 1 in u.ops && u.ops == s.ops[1 := u.ops[1]]
    requires u.w.st.rows == s.w.st.rows["c" := NewRow(input, "c", 2)] && u.w.st.acl == s.w.st.acl
    ensures HoldsFirstSignature(u, first) && 3 !in u.ops
  {}

  lemma FirstSignatureOn(f: Format, s: System, data: Bytes, fileless: Bytes) returns (t: System, a: Action, u: System)
    requires f.Lawful() && f.packaging.inspect(data).None? && f.packaging.complete(fileless, [File("f", data)]).Some?
    requires SystemInv(f, s) && HoldsUpload(s, data)
    ensures Leads(f, s, [ReadRow(1, "s", UPLOADER, Complete(fileless)), FetchObject(1), StageCreate(1, Plainly("k1"))], t)
    ensures Leads(f, t, [Commit(1, a)], u) && SystemInv(f, u)
    ensures HoldsFirstSignature(u, f.packaging.complete(fileless, [File("f", data)]).value) && 3 !in u.ops
  {
    ReadyToComplete(s, data);
    t, a, u := UndisturbedCompleteSucceeds(f, s, 1, 90, "s", UPLOADER, fileless, "f", Plainly("k1"), "c", 2);
    FirstSignatureHeld(s, u, data, a.insert, f.packaging.complete(fileless, [File("f", data)]).value);
  }

  lemma AFirstSignature(f: Format, data: Bytes, fileless: Bytes) returns (steps: seq<Move>, u: System)
    requires f.Lawful() && f.packaging.inspect(data).None? && f.packaging.complete(fileless, [File("f", data)]).Some?
    ensures Leads(f, INITIAL, steps, u) && SystemInv(f, u)
    ensures HoldsFirstSignature(u, f.packaging.complete(fileless, [File("f", data)]).value) && 3 !in u.ops
  {
    var upload, s := AnUpload(f, data);
    var t, a;
    t, a, u := FirstSignatureOn(f, s, data, fileless);
    var three := [ReadRow(1, "s", UPLOADER, Complete(fileless)), FetchObject(1), StageCreate(1, Plainly("k1"))];
    LeadsOn(f, INITIAL, upload, s, three, t);
    LeadsOn(f, INITIAL, upload + three, t, [Commit(1, a)], u);
    steps := upload + three + [Commit(1, a)];
  }

  lemma ADownload(f: Format, data: Bytes, fileless: Bytes) returns (steps: seq<Move>, u: System)
    requires f.Lawful() && f.packaging.inspect(data).None? && f.packaging.complete(fileless, [File("f", data)]).Some?
    ensures Leads(f, INITIAL, steps, u) && SystemInv(f, u)
    ensures var first := f.packaging.complete(fileless, [File("f", data)]).value;
            HoldsFirstSignature(u, first) && 3 in u.ops && u.ops[3].Fetched? && u.ops[3].data == first
  {
    var signed, s := AFirstSignature(f, data, fileless);
    UploaderReads(s.w.st, "c");
    var doc;
    u, doc := ContentGoesThrough(f, s, 3, "c", UPLOADER, Download);
    LeadsOn(f, INITIAL, signed, s, [ReadRow(3, "c", UPLOADER, Download), FetchObject(3)], u);
    steps := signed + [ReadRow(3, "c", UPLOADER, Download), FetchObject(3)];
  }

  lemma ReadyForMore(f: Format, s: System, first: Bytes, signature: Bytes)
    requires HoldsFirstSignature(s, first) && f.packaging.addSignature(first, signature).Some?
    ensures ReadyToRead(s, "c", UPLOADER)
    ensures MergedNow(f, s, "c", UPLOADER, AddSignature(signature)) == f.packaging.addSignature(first, signature)
    ensures 2 !in s.ops && 4 !in s.ops && FreshKey(s, Plainly("k2")) && FreshKey(s, Plainly("k3"))
    ensures Plainly("k2").objKey != Plainly("k3").objKey && ValidClass("preservation")
  {
    UploaderReads(s.w.st, "c");
  }

  lemma DroppedOn(f: Format, s: System, first: Bytes, signature: Bytes)
      returns (t: System, a: Action, u: System, more: seq<Move>, v: System, b: Action, z: System)
    requires f.Lawful() && SystemInv(f, s) && HoldsFirstSignature(s, first) && f.packaging.addSignature(first, signature).Some?
    requires 3 in s.ops && s.ops[3].Fetched? && s.ops[3].data == first
    ensures Leads(f, s, [ReadRow(2, "c", UPLOADER, AddSignature(signature)), FetchObject(2), StageMerge(2, Plainly("k2"))], t)
    ensures Succeeds(f, t, 2, a) && Leads(f, t, [Commit(2, a)], u)
    ensures BytesOf(f.crypto, u, "c") == f.packaging.addSignature(first, signature)
    ensures Leads(f, u, more, v) && Succeeds(f, v, 4, b) && Leads(f, v, [Commit(4, b)], z)
    ensures BytesOf(f.crypto, z, "c") == Some(first)
  {
    ReadyForMore(f, s, first, signature);
    var head;
    t, a, u, head, v, b, z := StaleRefreshUndoesACoSignature(
      f, s, 3, 2, 4, "c", UPLOADER, AddSignature(signature), Plainly("k2"), Plainly("k3"), "preservation", 4);
    more := [ReadHead(4, UPLOADER, NO_ID, head), StageSupersede(4, Plainly("k3"), first)];
  }

  /** It does happen, from the empty system: a document is uploaded and signed, an archiver
      downloads the container, a second signature is accepted and stored, and then the archiver's
      refresh is accepted too and the container is back to what it was. */
  lemma ASignatureIsDropped(f: Format, data: Bytes, fileless: Bytes, signature: Bytes)
      returns (steps: seq<Move>, t: System, a: Action, u: System, more: seq<Move>, v: System, b: Action, z: System)
    requires f.Lawful() && f.packaging.inspect(data).None? && f.packaging.complete(fileless, [File("f", data)]).Some?
    requires f.packaging.addSignature(f.packaging.complete(fileless, [File("f", data)]).value, signature).Some?
    ensures var first := f.packaging.complete(fileless, [File("f", data)]).value;
            && Leads(f, INITIAL, steps, t)
            && Succeeds(f, t, 2, a) && Leads(f, t, [Commit(2, a)], u)
            && BytesOf(f.crypto, u, "c") == f.packaging.addSignature(first, signature)
            && Leads(f, u, more, v) && Succeeds(f, v, 4, b) && Leads(f, v, [Commit(4, b)], z)
            && BytesOf(f.crypto, z, "c") == Some(first)
  {
    var first := f.packaging.complete(fileless, [File("f", data)]).value;
    var downloaded, s := ADownload(f, data, fileless);
    t, a, u, more, v, b, z := DroppedOn(f, s, first, signature);
    var sign := [ReadRow(2, "c", UPLOADER, AddSignature(signature)), FetchObject(2), StageMerge(2, Plainly("k2"))];
    LeadsOn(f, INITIAL, downloaded, s, sign, t);
    steps := downloaded + sign;
  }

  const FORMAT: Format := Format(PLAIN, BOXES)

  /** And with a format there is: the second signature was not there before, is there after its
      commit, and is gone after the refresh. */
  lemma ASecondSignatureComesAndGoes()
      returns (steps: seq<Move>, t: System, a: Action, u: System, more: seq<Move>, v: System, b: Action, z: System)
    ensures FORMAT.Lawful() && Leads(FORMAT, INITIAL, steps, t)
    ensures Succeeds(FORMAT, t, 2, a) && Leads(FORMAT, t, [Commit(2, a)], u)
    ensures BytesOf(PLAIN, u, "c").Some? && [8] in BOXES.signatures(BytesOf(PLAIN, u, "c").value)
    ensures Leads(FORMAT, u, more, v) && Succeeds(FORMAT, v, 4, b) && Leads(FORMAT, v, [Commit(4, b)], z)
    ensures BytesOf(PLAIN, z, "c").Some? && [8] !in BOXES.signatures(BytesOf(PLAIN, z, "c").value)
  {
    PlainIsLawful();
    BoxesAreLawful();
    BoxesTakeTwoSignatures([]);
    steps, t, a, u, more, v, b, z := ASignatureIsDropped(FORMAT, [], FIRST, SECOND);
  }
}
