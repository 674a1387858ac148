/** The service under concurrency: any number of requests in flight, each between two of its
    steps, over one metadata store and one object store. */
module Protocol {
  import opened Types
  import opened Metadata
  import Reads
  import opened StoreRuns
  import opened ByteModel

  // ---- The state -----------------------------------------------------------------------

  // Why a request reads a document's bytes.
  datatype Job =
    | Download
    | Complete(fileless: Bytes)     // sign this document: into it, or into a new container
    | CoSignInto(fileless: Bytes)   // the create race was lost: sign into the winner
    | AddSignature(signature: Bytes)

  // What the commit of a staged object will be.
  datatype Plan =
    | CreateContainer(parent: Id, fileless: Bytes, file: File)
    | MergeInto(row: Id, base: Bytes, added: set<Bytes>)
    | Supersede(row: Id, expected: string) // bytes made elsewhere, over the digest read here
    | OtherWrite                           // an insert, a bundle or a rebundle

  datatype Next = Finished | LookUpWinner(parent: Id, fileless: Bytes)

  // Where a request stands between two steps.
  datatype Op =
    | Reading(doc: Document, job: Job)                    // row read, object not fetched yet
    | Fetched(doc: Document, data: Bytes, job: Job)       // bytes in hand
    | HeadRead(row: Id, expected: string)                 // the head's digest in hand, its successor given
    | Staged(key: Id, keyRef: string, data: Bytes, plan: Plan) // object put, row not committed yet
    | Cleaning(keys: set<Id>, next: Next)                 // committed or refused, deletes pending
    | Resolving(parent: Id, fileless: Bytes)              // must find the container that won
    | Rereading(winner: Id, fileless: Bytes)              // found it, must read it

  // Who answers for an object.
  datatype Holder = RowHolds(id: Id) | StagedBy(op: nat) | DoomedBy(op: nat) | Orphaned

  // What signing requests have put into a container: its data objects and their signatures.
  datatype Entry = Entry(objects: Option<seq<File>>, signatures: set<Bytes>)

  // The last three components only record history: they never decide a step.
  datatype System = System(
    w: World,
    objs: map<Id, Bytes>,
    ops: map<nat, Op>,
    drawn: set<Id>,
    owner: map<Id, Holder>,
    contents: map<Id, Bytes>,
    log: map<Id, Entry>)

  const INITIAL: System := System(EMPTY, map[], map[], {}, map[], map[], map[])

  datatype Format = Format(crypto: Crypto, packaging: Packaging)
  {
    ghost predicate Lawful() { crypto.Lawful() && packaging.Lawful() }
  }

  // ---- The steps -----------------------------------------------------------------------

  datatype Move =
    | ReadRow(op: nat, id: Id, caller: Caller, job: Job)
    | FetchObject(op: nat)
    | EndRequest(op: nat)
    | StageMerge(op: nat, draw: Draw)
    | StageCreate(op: nat, draw: Draw)
    | ReadHead(op: nat, caller: Caller, root: Id, head: Document)
    | StageSupersede(op: nat, draw: Draw, data: Bytes)
    | StageOther(op: nat, draw: Draw, data: Bytes)
    | Commit(op: nat, action: Action)
    | Call(op: nat, action: Action)
    | DeleteObject(op: nat, key: Id)
    | DeleteFails(op: nat, key: Id)
    | FinishCleaning(op: nat)
    | Resolve(op: nat, caller: Caller, found: Document)
    | RereadRow(op: nat, caller: Caller)
    | Crash(op: nat)

  // The container a signing request makes of the bytes it read, and what it adds to them.
  function Merged(p: Packaging, doc: Document, data: Bytes, job: Job): Option<Bytes> {
    match job
    case Download => None
    case Complete(fileless) => if doc.kind.Container? then p.coSign(data, fileless) else None
    case CoSignInto(fileless) => p.coSign(data, fileless)
    case AddSignature(signature) => p.addSignature(data, signature)
  }

  function Added(p: Packaging, job: Job): set<Bytes> {
    match job
    case Download => {}
    case Complete(fileless) => p.signatures(fileless)
    case CoSignInto(fileless) => p.signatures(fileless)
    case AddSignature(signature) => p.signatures(signature)
  }

  function NewContainer(p: Packaging, doc: Document, data: Bytes, job: Job): Option<Bytes> {
    if job.Complete? && !doc.kind.Container? then p.complete(job.fileless, [File(doc.filename, data)]) else None
  }

  // The row the commit writes carries the staged object and is the one the plan names.
  ghost predicate Fits(f: Format, a: Action, op: Op)
    requires op.Staged?
  {
    && LoadOf(a).Some?
    && LoadOf(a).value == Load(LoadOf(a).value.target, op.key, op.keyRef, f.crypto.hash(op.data), |op.data|)
    && match op.plan
       case CreateContainer(parent, _, _) =>
         a.Insert? && KindOf(a.insert).Container? && a.insert.parentId == parent && StatusOf(a.insert).Signed?
       case MergeInto(row, base, _) =>
         a.Replace? && a.replace.id == row && a.replace.expectedHash == f.crypto.hash(base)
       case Supersede(row, expected) => a.Replace? && a.replace.id == row && a.replace.expectedHash == expected
       case OtherWrite => !a.Replace?
  }

  // The signed row a caller may replace: read by its id, or found as its chain's signed PDF.
  ghost predicate HeadShown(s: State, caller: Caller, root: Id, head: Document) {
    || (Reads.Get(s, head.id, caller) == Ok(head) && !head.kind.Source?)
    || Reads.Answers(s, root, caller, Reads.SignedPdfsOf(s.rows, root), Ok(head))
  }

  ghost predicate FreshKey(s: System, draw: Draw) { draw.objKey != NO_ID && draw.objKey !in s.drawn }

  ghost predicate CanStep(f: Format, s: System, step: Move) {
    match step
    case ReadRow(op, id, caller, _) =>
      && op !in s.ops
      && var r := Reads.Get(s.w.st, id, caller);
         r.Ok? && r.value.storageRef != NO_ID && r.value.encryptionKeyRef != ""
    case FetchObject(op) =>
      && op in s.ops && s.ops[op].Reading?
      && var doc := s.ops[op].doc;
         doc.storageRef in s.objs && f.crypto.Plain(s.objs[doc.storageRef], doc.encryptionKeyRef).Some?
    case EndRequest(op) => op in s.ops && !s.ops[op].Staged? && !s.ops[op].Cleaning?
    case StageMerge(op, draw) =>
      && op in s.ops && s.ops[op].Fetched? && FreshKey(s, draw)
      && Merged(f.packaging, s.ops[op].doc, s.ops[op].data, s.ops[op].job).Some?
    case StageCreate(op, draw) =>
      && op in s.ops && s.ops[op].Fetched? && FreshKey(s, draw)
      && NewContainer(f.packaging, s.ops[op].doc, s.ops[op].data, s.ops[op].job).Some?
    case ReadHead(op, caller, root, head) => op !in s.ops && HeadShown(s.w.st, caller, root, head)
    case StageSupersede(op, draw, _) => op in s.ops && s.ops[op].HeadRead? && FreshKey(s, draw)
    case StageOther(op, draw, _) => op !in s.ops && FreshKey(s, draw)
    case Commit(op, a) => op in s.ops && s.ops[op].Staged? && Fits(f, a, s.ops[op]) && Enabled(s.w, a)
    case Call(op, a) => op !in s.ops && LoadOf(a).None? && Enabled(s.w, a)
    case DeleteObject(op, key) => op in s.ops && s.ops[op].Cleaning? && key in s.ops[op].keys
    case DeleteFails(op, key) => op in s.ops && s.ops[op].Cleaning? && key in s.ops[op].keys
    case FinishCleaning(op) => op in s.ops && s.ops[op].Cleaning? && s.ops[op].keys == {}
    case Resolve(op, caller, found) =>
      && op in s.ops && s.ops[op].Resolving?
      && Reads.Answers(
           s.w.st, s.ops[op].parent, caller, Reads.ContainersOf(s.w.st.rows, s.ops[op].parent), Ok(found))
    case RereadRow(op, caller) =>
      && op in s.ops && s.ops[op].Rereading?
      && var r := Reads.Get(s.w.st, s.ops[op].winner, caller);
         r.Ok? && r.value.storageRef != NO_ID && r.value.encryptionKeyRef != ""
    case Crash(op) => op in s.ops
  }

  function PutObject(f: Format, s: System, op: nat, draw: Draw, data: Bytes, plan: Plan): System {
    s.(objs := s.objs[draw.objKey := Sealed(f.crypto, draw, data)],
       drawn := s.drawn + {draw.objKey},
       owner := s.owner[draw.objKey := StagedBy(op)],
       ops := s.ops[op := Staged(draw.objKey, KeyRef(f.crypto, draw), data, plan)])
  }

  function Reassigned(owner: map<Id, Holder>, keys: set<Id>, h: Holder): map<Id, Holder> {
    map k | k in owner :: if k in keys then h else owner[k]
  }

  // What a refused commit does next: the loser of a create race looks the winner up.
  function AfterRefusal(plan: Plan, e: Error): Next {
    if plan.CreateContainer? && e.ChainAdvanced? then LookUpWinner(plan.parent, plan.fileless) else Finished
  }

  function Logged(f: Format, s: System, op: Op, target: Id): map<Id, Entry>
    requires op.Staged?
  {
    var entry := Entry(f.packaging.dataObjects(op.data), f.packaging.signatures(op.data));
    match op.plan
    case CreateContainer(_, _, _) => s.log[target := entry]
    case MergeInto(row, _, _) =>
      if row in s.w.st.rows && s.w.st.rows[row].kind.Container? then s.log[row := entry] else s.log
    case Supersede(_, _) => s.log
    case OtherWrite => s.log
  }

  function Committed(f: Format, s: System, op: nat, a: Action): System
    requires op in s.ops && s.ops[op].Staged? && LoadOf(a).Some?
  {
    var o, target := s.ops[op], LoadOf(a).value.target;
    if Refusal(s.w.st, a).Some? then
      s.(w := Step(s.w, a),
         owner := Reassigned(s.owner, {o.key}, DoomedBy(op)),
         ops := s.ops[op := Cleaning({o.key}, AfterRefusal(o.plan, Refusal(s.w.st, a).value))])
    else
      s.(w := Step(s.w, a),
         owner := Reassigned(Reassigned(s.owner, Freed(s.w.st, a), DoomedBy(op)), {o.key}, RowHolds(target)),
         ops := s.ops[op := Cleaning(Freed(s.w.st, a), Finished)],
         contents := s.contents[target := o.data],
         log := Logged(f, s, o, target))
  }

  function Called(s: System, op: nat, a: Action): System {
    s.(w := Step(s.w, a),
       owner := Reassigned(s.owner, Freed(s.w.st, a), DoomedBy(op)),
       ops := s.ops[op := Cleaning(Freed(s.w.st, a), Finished)])
  }

  function HeldKeys(o: Op): set<Id> {
    match o
    case Staged(key, _, _, _) => {key}
    case Cleaning(keys, _) => keys
    case _ => {}
  }

  ghost function After(f: Format, s: System, step: Move): System
    requires CanStep(f, s, step)
  {
    match step
    case ReadRow(op, id, caller, job) => s.(ops := s.ops[op := Reading(Reads.Get(s.w.st, id, caller).value, job)])
    case FetchObject(op) =>
      var doc := s.ops[op].doc;
      s.(ops := s.ops[op := Fetched(doc, f.crypto.Plain(s.objs[doc.storageRef], doc.encryptionKeyRef).value, s.ops[op].job)])
    case EndRequest(op) => s.(ops := s.ops - {op})
    case StageMerge(op, draw) =>
      var o := s.ops[op];
      PutObject(f, s, op, draw, Merged(f.packaging, o.doc, o.data, o.job).value,
                MergeInto(o.doc.id, o.data, Added(f.packaging, o.job)))
    case StageCreate(op, draw) =>
      var o := s.ops[op];
      PutObject(f, s, op, draw, NewContainer(f.packaging, o.doc, o.data, o.job).value,
                CreateContainer(o.doc.id, o.job.fileless, File(o.doc.filename, o.data)))
    case ReadHead(op, _, _, head) => s.(ops := s.ops[op := HeadRead(head.id, head.contentHash)])
    case StageSupersede(op, draw, data) =>
      PutObject(f, s, op, draw, data, Supersede(s.ops[op].row, s.ops[op].expected))
    case StageOther(op, draw, data) => PutObject(f, s, op, draw, data, OtherWrite)
    case Commit(op, a) => Committed(f, s, op, a)
    case Call(op, a) => Called(s, op, a)
    case DeleteObject(op, key) =>
      s.(objs := s.objs - {key}, owner := s.owner - {key},
         ops := s.ops[op := Cleaning(s.ops[op].keys - {key}, s.ops[op].next)])
    case DeleteFails(op, key) =>
      s.(owner := s.owner[key := Orphaned],
         ops := s.ops[op := Cleaning(s.ops[op].keys - {key}, s.ops[op].next)])
    case FinishCleaning(op) =>
      (match s.ops[op].next
       case Finished => s.(ops := s.ops - {op})
       case LookUpWinner(parent, fileless) => s.(ops := s.ops[op := Resolving(parent, fileless)]))
    case Resolve(op, _, found) => s.(ops := s.ops[op := Rereading(found.id, s.ops[op].fileless)])
    case RereadRow(op, caller) =>
      s.(ops := s.ops[op := Reading(Reads.Get(s.w.st, s.ops[op].winner, caller).value, CoSignInto(s.ops[op].fileless))])
    case Crash(op) =>
      s.(owner := Reassigned(s.owner, HeldKeys(s.ops[op]), Orphaned), ops := s.ops - {op})
  }

  // ---- The invariant -------------------------------------------------------------------

  ghost predicate HoldersMatchRows(rows: map<Id, Document>, owner: map<Id, Holder>) {
    && (forall id | id in rows && rows[id].storageRef != NO_ID ::
          rows[id].storageRef in owner && owner[rows[id].storageRef] == RowHolds(id))
    && (forall k | k in owner && owner[k].RowHolds? :: owner[k].id in rows && rows[owner[k].id].storageRef == k)
    && NO_ID !in owner
  }

  ghost predicate HoldersMatchOps(ops: map<nat, Op>, owner: map<Id, Holder>) {
    && (forall o, k | o in ops && k in HeldKeys(ops[o]) ::
          k in owner && owner[k] == if ops[o].Staged? then StagedBy(o) else DoomedBy(o))
    && (forall k | k in owner && owner[k].StagedBy? :: owner[k].op in ops && ops[owner[k].op].Staged? && ops[owner[k].op].key == k)
    && (forall k | k in owner && owner[k].DoomedBy? ::
          owner[k].op in ops && ops[owner[k].op].Cleaning? && k in ops[owner[k].op].keys)
  }

  ghost predicate Owned(s: System) {
    && s.owner.Keys == s.objs.Keys <= s.drawn
    && HoldersMatchRows(s.w.st.rows, s.owner)
    && HoldersMatchOps(s.ops, s.owner)
  }

  // The recorded bytes are those of the row's digest and, while it has an object, of the object.
  ghost predicate RowRecorded(c: Crypto, d: Document, objs: map<Id, Bytes>, data: Bytes) {
    && d.contentHash == c.hash(data) && d.size == |data|
    && (d.storageRef != NO_ID ==> d.storageRef in objs && c.Plain(objs[d.storageRef], d.encryptionKeyRef) == Some(data))
  }

  ghost predicate Recorded(f: Format, s: System) {
    forall id | id in s.w.st.rows :: id in s.contents && RowRecorded(f.crypto, s.w.st.rows[id], s.objs, s.contents[id])
  }

  ghost predicate PlanHolds(p: Packaging, data: Bytes, plan: Plan) {
    match plan
    case CreateContainer(_, fileless, file) =>
      p.dataObjects(data) == Some([file]) && p.signatures(fileless) <= p.signatures(data)
    case MergeInto(_, base, added) =>
      p.dataObjects(data) == p.dataObjects(base) && p.signatures(base) + added <= p.signatures(data)
    case Supersede(_, _) => true
    case OtherWrite => true
  }

  // What each request in flight can rely on, whatever the others do meanwhile.
  ghost predicate OpSound(f: Format, o: Op, objs: map<Id, Bytes>, drawn: set<Id>) {
    match o
    case Reading(doc, _) =>
      && doc.storageRef in drawn
      && (doc.storageRef in objs ==>
            Opens(f.crypto, objs[doc.storageRef], doc.encryptionKeyRef, doc.contentHash, doc.size))
    case Fetched(doc, data, _) => f.crypto.hash(data) == doc.contentHash && |data| == doc.size
    case Staged(key, keyRef, data, plan) =>
      && keyRef != "" && key in objs && f.crypto.Plain(objs[key], keyRef) == Some(data)
      && PlanHolds(f.packaging, data, plan)
    case _ => true
  }

  ghost predicate OpsSound(f: Format, s: System) {
    forall o | o in s.ops :: OpSound(f, s.ops[o], s.objs, s.drawn)
  }

  ghost predicate SystemInv(f: Format, s: System) {
    Inv(s.w) && Owned(s) && Recorded(f, s) && OpsSound(f, s)
  }
}
