/** Every step of every interleaving keeps rows, digests and objects in agreement. */
module ProtocolSafety {
  import opened Types
  import opened Metadata
  import Reads
  import opened StoreRuns
  import opened ByteModel
  import opened Protocol

  // ---- Ownership of objects --------------------------------------------------------------

  function Reowned(owner: map<Id, Holder>, freed: set<Id>, load: Option<Load>, op: nat): map<Id, Holder> {
    var doomed := Reassigned(owner, freed, DoomedBy(op));
    match load
    case None => doomed
    case Some(l) => Reassigned(doomed, {l.storageRef}, RowHolds(l.target))
  }

  lemma RowsReowned(
      rows: map<Id, Document>, rows': map<Id, Document>, released: set<Id>, load: Option<Load>,
      owner: map<Id, Holder>, op: nat)
    requires BytesStep(rows, rows', released, load) && HoldersMatchRows(rows, owner)
    requires load.Some? ==> load.value.storageRef in owner && owner[load.value.storageRef] == StagedBy(op)
    ensures HoldersMatchRows(rows', Reowned(owner, RefsAmong(rows, released), load, op))
  {
    var owner' := Reowned(owner, RefsAmong(rows, released), load, op);
    forall id | id in rows' && rows'[id].storageRef != NO_ID
      ensures rows'[id].storageRef in owner' && owner'[rows'[id].storageRef] == RowHolds(id)
    {
      if load.None? || load.value.target != id {
        assert rows[id].storageRef == rows'[id].storageRef && id !in released;
        assert owner[rows[id].storageRef] == RowHolds(id);
      }
    }
    forall k | k in owner' && owner'[k].RowHolds?
      ensures owner'[k].id in rows' && rows'[owner'[k].id].storageRef == k
    {
      if load.None? || k != load.value.storageRef {
        assert owner[k] == owner'[k] && k !in RefsAmong(rows, released);
        var id := owner[k].id;
        assert rows[id].storageRef == k && k != NO_ID;
        assert id !in released;
      }
    }
  }

  lemma OpsReowned(
      rows: map<Id, Document>, released: set<Id>, load: Option<Load>, ops: map<nat, Op>, owner: map<Id, Holder>,
      op: nat, next: Next)
    requires HoldersMatchRows(rows, owner) && HoldersMatchOps(ops, owner)
    requires match load
             case None => op !in ops
             case Some(l) => op in ops && ops[op].Staged? && ops[op].key == l.storageRef
    ensures HoldersMatchOps(
              ops[op := Cleaning(RefsAmong(rows, released), next)],
              Reowned(owner, RefsAmong(rows, released), load, op))
  {
    var freed := RefsAmong(rows, released);
    var ops', owner' := ops[op := Cleaning(freed, next)], Reowned(owner, freed, load, op);
    forall k | k in freed ensures k in owner && owner[k].RowHolds? {
      var id :| id in released && id in rows && rows[id].storageRef == k && k != NO_ID;
    }
    forall o, k | o in ops' && k in HeldKeys(ops'[o])
      ensures k in owner' && owner'[k] == if ops'[o].Staged? then StagedBy(o) else DoomedBy(o)
    {
      if o != op {
        assert k in HeldKeys(ops[o]);
        assert load.Some? ==> load.value.storageRef in HeldKeys(ops[op]);
      }
    }
    forall k | k in owner' && owner'[k].StagedBy?
      ensures owner'[k].op in ops' && ops'[owner'[k].op].Staged? && ops'[owner'[k].op].key == k
    {
      assert owner[k] == owner'[k];
    }
    forall k | k in owner' && owner'[k].DoomedBy?
      ensures owner'[k].op in ops' && ops'[owner'[k].op].Cleaning? && k in ops'[owner'[k].op].keys
    {
      assert k in freed || owner[k] == owner'[k];
    }
  }

  // A refused commit: the staged object is doomed, nothing else moves.
  lemma OpsRefused(ops: map<nat, Op>, owner: map<Id, Holder>, op: nat, next: Next)
    requires HoldersMatchOps(ops, owner) && op in ops && ops[op].Staged?
    ensures HoldersMatchOps(ops[op := Cleaning({ops[op].key}, next)], Reassigned(owner, {ops[op].key}, DoomedBy(op)))
  {}

  lemma RowsUntouched(rows: map<Id, Document>, owner: map<Id, Holder>, keys: set<Id>, h: Holder)
    requires HoldersMatchRows(rows, owner) && !h.RowHolds?
    requires forall k | k in keys && k in owner :: !owner[k].RowHolds?
    ensures HoldersMatchRows(rows, Reassigned(owner, keys, h))
  {}

  lemma RefusedKeepsOwned(f: Format, s: System, op: nat, a: Action)
    requires Owned(s) && CanStep(f, s, Commit(op, a)) && Refusal(s.w.st, a).Some?
    ensures Owned(Committed(f, s, op, a))
  {
    var o := s.ops[op];
    assert o.key in HeldKeys(o);
    RowsUntouched(s.w.st.rows, s.owner, {o.key}, DoomedBy(op));
    OpsRefused(s.ops, s.owner, op, AfterRefusal(o.plan, Refusal(s.w.st, a).value));
  }

  lemma AcceptedKeepsOwned(s: System, rows': map<Id, Document>, released: set<Id>, load: Option<Load>, op: nat)
    requires Owned(s) && BytesStep(s.w.st.rows, rows', released, load)
    requires match load
             case None => op !in s.ops
             case Some(l) => op in s.ops && s.ops[op].Staged? && s.ops[op].key == l.storageRef
    ensures var (owner', freed) := (Reowned(s.owner, RefsAmong(s.w.st.rows, released), load, op), RefsAmong(s.w.st.rows, released));
            && owner'.Keys == s.owner.Keys && HoldersMatchRows(rows', owner')
            && HoldersMatchOps(s.ops[op := Cleaning(freed, Finished)], owner')
  {
    assert load.Some? ==> load.value.storageRef in HeldKeys(s.ops[op]);
    RowsReowned(s.w.st.rows, rows', released, load, s.owner, op);
    OpsReowned(s.w.st.rows, released, load, s.ops, s.owner, op, Finished);
  }

  lemma CommitKeepsOwned(f: Format, s: System, op: nat, a: Action)
    requires SystemInv(f, s) && CanStep(f, s, Commit(op, a))
    ensures Owned(Committed(f, s, op, a))
  {
    if Refusal(s.w.st, a).Some? {
      RefusedKeepsOwned(f, s, op, a);
    } else {
      BytesMove(s.w, a);
      AcceptedKeepsOwned(s, Apply(s.w.st, a).rows, Released(s.w.st, a), LoadOf(a), op);
    }
  }

  lemma CallKeepsOwned(f: Format, s: System, op: nat, a: Action)
    requires SystemInv(f, s) && CanStep(f, s, Call(op, a))
    ensures Owned(Called(s, op, a))
  {
    BytesMove(s.w, a);
    AcceptedKeepsOwned(s, Apply(s.w.st, a).rows, Released(s.w.st, a), None, op);
  }

  lemma OpsPut(ops: map<nat, Op>, owner: map<Id, Holder>, op: nat, o: Op)
    requires HoldersMatchOps(ops, owner) && o.Staged? && o.key !in owner
    requires op in ops ==> HeldKeys(ops[op]) == {}
    ensures HoldersMatchOps(ops[op := o], owner[o.key := StagedBy(op)])
  {
    var ops', owner' := ops[op := o], owner[o.key := StagedBy(op)];
    forall x, k | x in ops' && k in HeldKeys(ops'[x])
      ensures k in owner' && owner'[k] == if ops'[x].Staged? then StagedBy(x) else DoomedBy(x)
    {
      assert x != op ==> k in HeldKeys(ops[x]);
    }
    forall k | k in owner && (owner[k].StagedBy? || owner[k].DoomedBy?) ensures owner[k].op != op {
      assert k in HeldKeys(ops[owner[k].op]);
    }
  }

  lemma PutKeepsOwned(f: Format, s: System, op: nat, draw: Draw, data: Bytes, plan: Plan)
    requires Owned(s) && FreshKey(s, draw)
    requires op in s.ops ==> HeldKeys(s.ops[op]) == {}
    ensures Owned(PutObject(f, s, op, draw, data, plan))
  {
    assert draw.objKey !in s.owner;
    OpsPut(s.ops, s.owner, op, Staged(draw.objKey, KeyRef(f.crypto, draw), data, plan));
  }

  lemma DeleteKeepsOwned(s: System, op: nat, key: Id, next: Next)
    requires Owned(s) && op in s.ops && s.ops[op].Cleaning? && key in s.ops[op].keys
    ensures Owned(s.(objs := s.objs - {key}, owner := s.owner - {key},
                     ops := s.ops[op := Cleaning(s.ops[op].keys - {key}, next)]))
    ensures Owned(s.(owner := s.owner[key := Orphaned],
                     ops := s.ops[op := Cleaning(s.ops[op].keys - {key}, next)]))
  {
    assert key in HeldKeys(s.ops[op]);
  }

  lemma CrashKeepsOwned(s: System, op: nat)
    requires Owned(s) && op in s.ops
    ensures Owned(s.(owner := Reassigned(s.owner, HeldKeys(s.ops[op]), Orphaned), ops := s.ops - {op}))
  {
    forall o, k | o in s.ops && k in HeldKeys(s.ops[o]) && k in HeldKeys(s.ops[op]) ensures o == op {
      assert s.owner[k] == if s.ops[o].Staged? then StagedBy(o) else DoomedBy(o);
    }
  }

  // Steps that neither touch objects nor rows and hold no object before or after.
  lemma QuietKeepsOwned(s: System, op: nat, o: Op)
    requires Owned(s) && HeldKeys(o) == {} && !o.Staged?
    requires op in s.ops ==> HeldKeys(s.ops[op]) == {}
    ensures Owned(s.(ops := s.ops[op := o])) && Owned(s.(ops := s.ops - {op}))
  {}

  lemma StageKeepsOwned(f: Format, s: System, step: Move)
    requires Owned(s) && CanStep(f, s, step) && Stages(step)
    ensures Owned(After(f, s, step))
  {
    match step
    case StageMerge(op, draw) =>
      var o := s.ops[op];
      PutKeepsOwned(f, s, op, draw, Merged(f.packaging, o.doc, o.data, o.job).value,
                    MergeInto(o.doc.id, o.data, Added(f.packaging, o.job)));
    case StageCreate(op, draw) =>
      var o := s.ops[op];
      PutKeepsOwned(f, s, op, draw, NewContainer(f.packaging, o.doc, o.data, o.job).value,
                    CreateContainer(o.doc.id, o.job.fileless, File(o.doc.filename, o.data)));
    case StageSupersede(op, draw, data) => PutKeepsOwned(f, s, op, draw, data, Supersede(s.ops[op].row, s.ops[op].expected));
    case StageOther(op, draw, data) => PutKeepsOwned(f, s, op, draw, data, OtherWrite);
  }

  // The steps of a request between its reads and its write.
  predicate Idles(step: Move) {
    step.ReadRow? || step.ReadHead? || step.FetchObject? || step.EndRequest? || step.FinishCleaning? || step.Resolve? || step.RereadRow?
  }

  lemma IdlingKeepsOwned(f: Format, s: System, step: Move)
    requires Owned(s) && CanStep(f, s, step) && Idles(step)
    ensures Owned(After(f, s, step))
  {
    var op, s' := step.op, After(f, s, step);
    QuietKeepsOwned(s, op, if op in s'.ops then s'.ops[op] else Resolving(NO_ID, []));
  }

  lemma OwnedKept(f: Format, s: System, step: Move)
    requires SystemInv(f, s) && CanStep(f, s, step)
    ensures Owned(After(f, s, step))
  {
    match step
    case StageMerge(_, _) => StageKeepsOwned(f, s, step);
    case StageCreate(_, _) => StageKeepsOwned(f, s, step);
    case StageSupersede(_, _, _) => StageKeepsOwned(f, s, step);
    case StageOther(_, _, _) => StageKeepsOwned(f, s, step);
    case Commit(op, a) => CommitKeepsOwned(f, s, op, a);
    case Call(op, a) => CallKeepsOwned(f, s, op, a);
    case DeleteObject(op, key) => DeleteKeepsOwned(s, op, key, s.ops[op].next);
    case DeleteFails(op, key) => DeleteKeepsOwned(s, op, key, s.ops[op].next);
    case Crash(op) => CrashKeepsOwned(s, op);
    case _ => IdlingKeepsOwned(f, s, step);
  }

  // ---- Rows and their bytes ----------------------------------------------------------------

  // Objects only come under new keys and go; none is ever rewritten.
  ghost predicate Unrewritten(objs: map<Id, Bytes>, objs': map<Id, Bytes>, drawn: set<Id>) {
    forall k | k in objs' && k in drawn :: k in objs && objs'[k] == objs[k]
  }

  lemma RecordedAfterStore(
      c: Crypto, rows: map<Id, Document>, rows': map<Id, Document>, released: set<Id>, load: Option<Load>,
      objs: map<Id, Bytes>, contents: map<Id, Bytes>, data: Bytes)
    requires BytesStep(rows, rows', released, load)
    requires forall id | id in rows :: id in contents && RowRecorded(c, rows[id], objs, contents[id])
    requires load.Some? ==>
               && load.value.storageRef in objs && load.value.hash == c.hash(data) && load.value.size == |data|
               && c.Plain(objs[load.value.storageRef], load.value.keyRef) == Some(data)
    ensures var contents' := if load.Some? then contents[load.value.target := data] else contents;
            forall id | id in rows' :: id in contents' && RowRecorded(c, rows'[id], objs, contents'[id])
  {}

  // Where the row table stands still, it is enough that no referenced object goes.
  lemma RecordedWhileObjectsStay(c: Crypto, s: System, objs': map<Id, Bytes>)
    requires Owned(s)
    requires forall id | id in s.w.st.rows :: id in s.contents && RowRecorded(c, s.w.st.rows[id], s.objs, s.contents[id])
    requires forall k | k in s.objs && s.owner[k].RowHolds? :: k in objs' && objs'[k] == s.objs[k]
    ensures forall id | id in s.w.st.rows :: RowRecorded(c, s.w.st.rows[id], objs', s.contents[id])
  {
    forall id | id in s.w.st.rows ensures RowRecorded(c, s.w.st.rows[id], objs', s.contents[id]) {
      assert RowRecorded(c, s.w.st.rows[id], s.objs, s.contents[id]);
    }
  }

  lemma CommitKeepsRecorded(f: Format, s: System, op: nat, a: Action)
    requires SystemInv(f, s) && CanStep(f, s, Commit(op, a))
    ensures Recorded(f, Committed(f, s, op, a))
  {
    BytesMove(s.w, a);
    assert OpSound(f, s.ops[op], s.objs, s.drawn);
    RecordedAfterStore(f.crypto, s.w.st.rows, Apply(s.w.st, a).rows, Released(s.w.st, a), Landing(s.w.st, a),
                       s.objs, s.contents, s.ops[op].data);
  }

  lemma CallKeepsRecorded(f: Format, s: System, op: nat, a: Action)
    requires SystemInv(f, s) && CanStep(f, s, Call(op, a))
    ensures Recorded(f, Called(s, op, a))
  {
    BytesMove(s.w, a);
    RecordedAfterStore(f.crypto, s.w.st.rows, Apply(s.w.st, a).rows, Released(s.w.st, a), None, s.objs, s.contents, []);
  }

  // Neither a commit nor a call: rows and recorded bytes stand still, and the only object that
  // may go is one a request was told to delete.
  lemma ElsewhereObjectsStay(f: Format, s: System, step: Move)
    requires Owned(s) && CanStep(f, s, step) && !step.Commit? && !step.Call?
    ensures var s' := After(f, s, step);
            && s'.w == s.w && s'.contents == s.contents && s'.log == s.log
            && forall k | k in s.objs && !s.owner[k].DoomedBy? :: k in s'.objs && s'.objs[k] == s.objs[k]
  {
    if step.DeleteObject? {
      assert step.key in HeldKeys(s.ops[step.op]);
    }
  }

  lemma ElsewhereKeepsRecorded(f: Format, s: System, step: Move, s': System)
    requires Owned(s) && Recorded(f, s)
    requires CanStep(f, s, step) && !step.Commit? && !step.Call? && s' == After(f, s, step)
    ensures Recorded(f, s')
  {
    ElsewhereObjectsStay(f, s, step);
    RecordedWhileObjectsStay(f.crypto, s, s'.objs);
  }

  lemma RecordedKept(f: Format, s: System, step: Move)
    requires SystemInv(f, s) && CanStep(f, s, step)
    ensures Recorded(f, After(f, s, step))
  {
    if step.Commit? {
      CommitKeepsRecorded(f, s, step.op, step.action);
    } else if step.Call? {
      CallKeepsRecorded(f, s, step.op, step.action);
    } else {
      ElsewhereKeepsRecorded(f, s, step, After(f, s, step));
    }
  }

  // ---- Requests in flight --------------------------------------------------------------------

  lemma OpSurvives(f: Format, o: Op, objs: map<Id, Bytes>, drawn: set<Id>, objs': map<Id, Bytes>, drawn': set<Id>)
    requires OpSound(f, o, objs, drawn) && drawn <= drawn' && objs.Keys <= drawn
    requires Unrewritten(objs, objs', drawn)
    requires o.Staged? ==> o.key in objs'
    ensures OpSound(f, o, objs', drawn')
  {}

  // The row read hands out a reference to an object that opens to what the row says.
  lemma ReadIsSound(f: Format, s: System, id: Id, caller: Caller, job: Job)
    requires SystemInv(f, s)
    requires Reads.Get(s.w.st, id, caller).Ok? && Reads.Get(s.w.st, id, caller).value.storageRef != NO_ID
    ensures OpSound(f, Reading(Reads.Get(s.w.st, id, caller).value, job), s.objs, s.drawn)
  {
    var doc := Reads.Get(s.w.st, id, caller).value;
    assert RowRecorded(f.crypto, s.w.st.rows[id], s.objs, s.contents[id]);
    assert doc.storageRef in s.owner;
  }

  lemma StageIsSound(f: Format, s: System, op: nat, draw: Draw, data: Bytes, plan: Plan)
    requires f.Lawful() && PlanHolds(f.packaging, data, plan)
    ensures var s' := PutObject(f, s, op, draw, data, plan);
            OpSound(f, s'.ops[op], s'.objs, s'.drawn)
  {
    SealedOpens(f.crypto, draw, data);
  }

  lemma MergeHolds(p: Packaging, doc: Document, data: Bytes, job: Job)
    requires p.Lawful() && Merged(p, doc, data, job).Some?
    ensures PlanHolds(p, Merged(p, doc, data, job).value, MergeInto(doc.id, data, Added(p, job)))
  {}

  lemma CreateHolds(p: Packaging, doc: Document, data: Bytes, job: Job)
    requires p.Lawful() && NewContainer(p, doc, data, job).Some?
    ensures PlanHolds(p, NewContainer(p, doc, data, job).value, CreateContainer(doc.id, job.fileless, File(doc.filename, data)))
  {}

  predicate Stages(step: Move) { step.StageMerge? || step.StageCreate? || step.StageSupersede? || step.StageOther? }

  lemma StagerSound(f: Format, s: System, step: Move)
    requires f.Lawful() && CanStep(f, s, step) && Stages(step)
    ensures var s' := After(f, s, step); step.op in s'.ops && OpSound(f, s'.ops[step.op], s'.objs, s'.drawn)
  {
    match step
    case StageMerge(op, draw) =>
      var o := s.ops[op];
      MergeHolds(f.packaging, o.doc, o.data, o.job);
      StageIsSound(f, s, op, draw, Merged(f.packaging, o.doc, o.data, o.job).value,
                   MergeInto(o.doc.id, o.data, Added(f.packaging, o.job)));
    case StageCreate(op, draw) =>
      var o := s.ops[op];
      CreateHolds(f.packaging, o.doc, o.data, o.job);
      StageIsSound(f, s, op, draw, NewContainer(f.packaging, o.doc, o.data, o.job).value,
                   CreateContainer(o.doc.id, o.job.fileless, File(o.doc.filename, o.data)));
    case StageSupersede(op, draw, data) => StageIsSound(f, s, op, draw, data, Supersede(s.ops[op].row, s.ops[op].expected));
    case StageOther(op, draw, data) => StageIsSound(f, s, op, draw, data, OtherWrite);
  }

  lemma FetcherSound(f: Format, s: System, op: nat)
    requires OpsSound(f, s) && CanStep(f, s, FetchObject(op))
    ensures var s' := After(f, s, FetchObject(op)); op in s'.ops && OpSound(f, s'.ops[op], s'.objs, s'.drawn)
  {
    assert OpSound(f, s.ops[op], s.objs, s.drawn);
  }

  // The request that moves is sound where it lands.
  lemma MoverSound(f: Format, s: System, step: Move)
    requires f.Lawful() && SystemInv(f, s) && CanStep(f, s, step)
    ensures var s' := After(f, s, step); step.op in s'.ops ==> OpSound(f, s'.ops[step.op], s'.objs, s'.drawn)
  {
    if step.ReadRow? {
      ReadIsSound(f, s, step.id, step.caller, step.job);
    } else if step.RereadRow? {
      ReadIsSound(f, s, s.ops[step.op].winner, step.caller, CoSignInto(s.ops[step.op].fileless));
    } else if step.FetchObject? {
      FetcherSound(f, s, step.op);
    } else if Stages(step) {
      StagerSound(f, s, step);
    }
  }

  // A step moves one request; objects are added under new keys, or deleted by who may.
  lemma OthersStandStill(f: Format, s: System, step: Move)
    requires CanStep(f, s, step) && s.objs.Keys <= s.drawn
    ensures var s' := After(f, s, step);
            && s.drawn <= s'.drawn && Unrewritten(s.objs, s'.objs, s.drawn)
            && (forall o | o in s'.ops && o != step.op :: o in s.ops && s'.ops[o] == s.ops[o])
            && (forall k | k in s.objs && k !in s'.objs :: step.DeleteObject? && k == step.key)
  {}

  // No other request is disturbed: the objects it may rely on are as they were, or gone.
  lemma BystanderSound(f: Format, s: System, step: Move, s': System, o: nat)
    requires SystemInv(f, s) && CanStep(f, s, step) && o in s.ops && o != step.op
    requires s.drawn <= s'.drawn && Unrewritten(s.objs, s'.objs, s.drawn)
    requires forall k | k in s.objs && k !in s'.objs :: step.DeleteObject? && k == step.key
    ensures OpSound(f, s.ops[o], s'.objs, s'.drawn)
  {
    assert OpSound(f, s.ops[o], s.objs, s.drawn);
    if s.ops[o].Staged? {
      assert s.ops[o].key in HeldKeys(s.ops[o]);
      assert s.owner[s.ops[o].key] == StagedBy(o);
      if step.DeleteObject? {
        assert step.key in HeldKeys(s.ops[step.op]);
      }
    }
    OpSurvives(f, s.ops[o], s.objs, s.drawn, s'.objs, s'.drawn);
  }

  lemma OpsSoundKept(f: Format, s: System, step: Move)
    requires f.Lawful() && SystemInv(f, s) && CanStep(f, s, step)
    ensures OpsSound(f, After(f, s, step))
  {
    var s' := After(f, s, step);
    MoverSound(f, s, step);
    OthersStandStill(f, s, step);
    forall o | o in s'.ops ensures OpSound(f, s'.ops[o], s'.objs, s'.drawn) {
      if o != step.op {
        BystanderSound(f, s, step, s', o);
      }
    }
  }

  /** Each step moves the metadata store by one of its own atomic calls, or not at all. */
  lemma StoreIsRefined(f: Format, s: System, step: Move)
    requires CanStep(f, s, step)
    ensures var w' := After(f, s, step).w;
            if step.Commit? || step.Call? then Enabled(s.w, step.action) && w' == Step(s.w, step.action)
            else w' == s.w
  {}

  lemma StepKeepsInv(f: Format, s: System, step: Move)
    requires f.Lawful() && SystemInv(f, s) && CanStep(f, s, step)
    ensures SystemInv(f, After(f, s, step))
  {
    StoreIsRefined(f, s, step);
    if step.Commit? || step.Call? {
      InvKept(s.w, step.action);
    }
    OwnedKept(f, s, step);
    RecordedKept(f, s, step);
    OpsSoundKept(f, s, step);
  }
}
