/** Who a request acts as and what it asks to have stored, and when its creator can read the new
    row back. */
module Requests {
  import opened Types
  import opened Metadata
  import Reads
  import opened StoreRuns
  import opened ByteModel
  import opened Documents

  // ---- Callers -------------------------------------------------------------------------------

  // The owner a product's document carries: the product and the organisation it acts for.
  function ProductPrincipal(product: string, tenant: string): string {
    if product == "" || tenant == "" then "" else "product:" + product + ":" + tenant
  }

  function RequestCaller(sub: string, serial: string, product: string, tenant: string): Caller {
    Caller(sub, serial, ProductPrincipal(product, tenant), tenant)
  }

  /** Unless a product's name has a colon in it, its principal names one product acting for one
      organisation. */
  lemma PrincipalNamesOneOrganisation(x: string, t: string, y: string, u: string)
    requires ':' !in x && ':' !in y
    requires ProductPrincipal(x, t) == ProductPrincipal(y, u) != ""
    ensures x == y && t == u
  {
    var p, q := ProductPrincipal(x, t), ProductPrincipal(y, u);
    assert p == "product:" + x + ":" + t && q == "product:" + y + ":" + u;
    assert p[8..] == x + ":" + t && q[8..] == y + ":" + u;
    FirstColon(x, t, y, u);
  }

  lemma FirstColon(x: string, t: string, y: string, u: string)
    requires ':' !in x && ':' !in y && x + ":" + t == y + ":" + u
    ensures x == y && t == u
  {
    var p, q := x + ":" + t, y + ":" + u;
    assert p[|x|] == ':' && q[|y|] == ':';
    assert forall i | 0 <= i < |x| :: p[i] == x[i] && x[i] in x;
    assert forall i | 0 <= i < |y| :: q[i] == y[i] && y[i] in y;
    assert |x| == |y|;
    assert p[..|x|] == x && q[..|y|] == y;
    assert p[|x| + 1..] == t && q[|y| + 1..] == u;
  }

  /** With a colon it may name two, and then the organisation test is what tells them apart. */
  lemma APrincipalOfTwoOrganisations()
    ensures ProductPrincipal("a", "b:c") == ProductPrincipal("a:b", "c")
  {
    assert ProductPrincipal("a", "b:c") == "product:a:b:c" && ProductPrincipal("a:b", "c") == "product:a:b:c";
  }

  /** For products without a colon the organisation test takes nothing from a caller its product
      entry lets in, as long as the row carries the organisation its owner's principal names. */
  lemma OrganisationTestRefusesOnlyStrays(
      d: Document, g: Grant, root: Id, sub: string, serial: string, product: string, tenant: string, owner: string)
    requires ':' !in product && ':' !in owner && g.kind.Product?
    requires HeldBy(g, root, RequestCaller(sub, serial, product, tenant))
    requires g.principal == ProductPrincipal(owner, d.tenantId)
    ensures TenantMatches(d, RequestCaller(sub, serial, product, tenant))
  {
    PrincipalNamesOneOrganisation(owner, d.tenantId, product, tenant);
  }

  // ---- What requests ask to have stored ----------------------------------------------------------

  // An upload under the default class; under the durable class the owner is the product.
  function UploadInput(owner: string, filename: string, data: Bytes): IngestInput {
    IngestInput(owner, "", "", None, NO_ID, filename, "", "", None, Some(Sub), Some(Ttl), None, data)
  }

  function DurableInput(product: string, tenant: string, filename: string, until: Option<Time>, data: Bytes): IngestInput {
    IngestInput(
      ProductPrincipal(product, tenant), "", tenant, None, NO_ID, filename, "", "", None, Some(Product), Some(Durable), until, data)
  }

  // The container made of a document: stored below it, under the signing subject.
  function ContainerInput(caller: Caller, target: Id, filename: string, class_: string, data: Bytes): IngestInput {
    IngestInput(
      caller.sub, caller.serial, "", Some(Container), target, filename, CONTAINER_MIME, class_, Some(Signed), None, None, None, data)
  }

  // A finished signed PDF: stored below the chain root.
  function PdfInput(caller: Caller, root: Id, filename: string, class_: string, data: Bytes): IngestInput {
    IngestInput(
      caller.sub, caller.serial, "", Some(Pdf), root, filename, "application/pdf", class_, Some(Signed), None, None, None, data)
  }

  // The new row's chain is the one it hangs below, by the caller's subject or identity code.
  ghost predicate HeldInPerson(acl: seq<Grant>, root: Id, caller: Caller) {
    exists g | g in acl :: !g.kind.Product? && HeldBy(g, root, caller) && Read in g.rights
  }

  /** Whoever completes a document reads the new container back exactly when an entry on that very
      document lets them in by subject or identity code; a product's entry does not. Where chains
      are one level deep this takes the document to be a chain root. */
  lemma ReadBackIff(
      s: State, c: Crypto, p: Packaging, ttl: int, caller: Caller, target: Id, filename: string, class_: string, data: Bytes,
      draw: Draw, id: Id, now: Time)
    requires var a := IngestAction(c, p, ttl, ContainerInput(caller, target, filename, class_, data), draw, id, now);
             target != NO_ID && !InsertBlocked(s, a.insert)
    ensures var input := ContainerInput(caller, target, filename, class_, data);
            var r := Reads.Get(Apply(s, IngestAction(c, p, ttl, input, draw, id, now)), id, IngestCaller(input));
            && (r.Ok? <==> HeldInPerson(s.acl, target, caller))
            && (RootedParents(s) && target in s.rows ==>
                  (r.Ok? <==> s.rows[target].parentId == NO_ID && HeldInPerson(s.acl, target, caller)))
  {
    var input := ContainerInput(caller, target, filename, class_, data);
    var me := IngestCaller(input);
    var s' := Apply(s, IngestAction(c, p, ttl, input, draw, id, now));
    assert s'.acl == s.acl && ChainRootId(s'.rows[id]) == target;
    forall g ensures HeldBy(g, target, me) <==> !g.kind.Product? && HeldBy(g, target, caller) {}
    if HeldInPerson(s.acl, target, caller) {
      var g :| g in s.acl && !g.kind.Product? && HeldBy(g, target, caller) && Read in g.rights;
      assert HeldBy(g, target, me);
    }
    if Allows(s'.acl, target, me, Read) {
      var g :| g in s'.acl && HeldBy(g, target, me) && Read in g.rights;
      assert g.chainRoot == target;
    }
  }

  // ---- Two ways not to --------------------------------------------------------------------------

  lemma UploadStored(c: Crypto, p: Packaging, ttl: int, owner: string, data: Bytes, draw: Draw, now: Time)
    requires c.Lawful() && p.inspect(data).None? && draw.objKey != NO_ID
    ensures var a := IngestAction(c, p, ttl, UploadInput(owner, "f", data), draw, "s", now);
            && Enabled(EMPTY, a)
            && Step(EMPTY, a) == World(State(map["s" := NewRow(a.insert, "s", now)], [Grant("s", Sub, owner, [Read, CoSign])]), {"s"})
  {}

  lemma DurableStored(c: Crypto, p: Packaging, ttl: int, product: string, tenant: string, data: Bytes, draw: Draw, now: Time)
    requires c.Lawful() && p.inspect(data).None? && draw.objKey != NO_ID
    ensures var a := IngestAction(c, p, ttl, DurableInput(product, tenant, "f", None, data), draw, "s", now);
            && Enabled(EMPTY, a)
            && Step(EMPTY, a) ==
                 World(State(map["s" := NewRow(a.insert, "s", now)], [Grant("s", Product, ProductPrincipal(product, tenant), [Read])]), {"s"})
  {}

  // A further signed row, below one that is there, of a form its chain has no live row of.
  lemma SignedStored(w: World, c: Crypto, p: Packaging, ttl: int, input: IngestInput, draw: Draw, id: Id, now: Time)
    requires c.Lawful() && draw.objKey != NO_ID && draw.objKey !in LiveRefs(w.st.rows)
    requires input.kind.Some? && input.status == Some(Signed) && input.ownerKind.None? && input.parentId in w.issued
    requires input.parentId != NO_ID && id != NO_ID && id !in w.issued
    requires forall x | x in w.st.rows :: !Blocks(w.st.rows[x], input.kind.value, input.parentId)
    ensures var a := IngestAction(c, p, ttl, input, draw, id, now);
            && a.Insert? && a.id == id && KindOf(a.insert) == input.kind.value && a.insert.parentId == input.parentId
            && a.insert.tenantId == input.tenantId && StatusOf(a.insert).Signed? && a.insert.storageRef == draw.objKey
            && Enabled(w, a) && Refusal(w.st, a).None?
            && Step(w, a) == World(State(w.st.rows[id := NewRow(a.insert, id, now)], w.st.acl), w.issued + {id})
  {}

  lemma ThreeCalls(w0: World, w1: World, w2: World, w3: World, a0: Action, a1: Action, a2: Action)
    requires Enabled(w0, a0) && w1 == Step(w0, a0) && Enabled(w1, a1) && w2 == Step(w1, a1)
    requires Enabled(w2, a2) && w3 == Step(w2, a2)
    ensures IsRun([w0, w1, w2, w3], [a0, a1, a2])
  {}

  lemma TwoCalls(w0: World, w1: World, w2: World, a0: Action, a1: Action)
    requires Enabled(w0, a0) && w1 == Step(w0, a0) && Enabled(w1, a1) && w2 == Step(w1, a1)
    ensures IsRun([w0, w1, w2], [a0, a1])
  {}

  lemma OneReference(rows: map<Id, Document>, id: Id, d: Document, key: Id)
    requires key !in LiveRefs(rows) && d.storageRef != key
    ensures key !in LiveRefs(rows[id := d])
  {
    forall k | k in LiveRefs(rows[id := d]) ensures k in LiveRefs(rows) || k == d.storageRef {
      var x :| x in rows[id := d] && rows[id := d][x].storageRef == k && k != NO_ID;
      assert x == id || x in rows;
    }
  }

  // A source, a signed PDF below it and a container below the PDF, all on one access entry.
  ghost predicate ThreeDeep(w: World, owner: string) {
    && w.st.rows.Keys == {"s", "p", "c"} && w.issued == {"s", "p", "c"} && w.st.acl == [Grant("s", Sub, owner, [Read, CoSign])]
    && var (s, p, c) := (w.st.rows["s"], w.st.rows["p"], w.st.rows["c"]);
       && s.id == "s" && s.parentId == NO_ID && !s.legalHold
       && p.id == "p" && p.parentId == "s" && p.kind.Pdf? && p.status.Signed? && !p.legalHold
       && c.id == "c" && c.parentId == "p" && c.kind.Container? && c.status.Signed? && !c.legalHold
       && s.tenantId == p.tenantId == c.tenantId == ""
  }

  // An upload, a signed PDF of it, and a completion of the PDF.
  lemma UploadSignComplete(
      c: Crypto, p: Packaging, ttl: int, caller: Caller, data: Bytes, d0: Draw, d1: Draw, d2: Draw)
      returns (ws: seq<World>, calls: seq<Action>)
    requires c.Lawful() && p.inspect(data).None? && caller.sub != "" && caller.product == ""
    requires d0.objKey != NO_ID && d1.objKey != NO_ID && d2.objKey != NO_ID
    requires d0.objKey != d1.objKey && d0.objKey != d2.objKey && d1.objKey != d2.objKey
    ensures calls == [IngestAction(c, p, ttl, UploadInput(caller.sub, "f", data), d0, "s", 1),
                      IngestAction(c, p, ttl, PdfInput(caller, "s", "f", "", data), d1, "p", 2),
                      IngestAction(c, p, ttl, ContainerInput(caller, "p", "f", "", data), d2, "c", 3)]
    ensures IsRun(ws, calls) && ws[0] == EMPTY && |ws| == 4
    ensures Reads.Get(ws[2].st, "p", caller).Ok? && ThreeDeep(ws[3], caller.sub)
  {
    var a0 := IngestAction(c, p, ttl, UploadInput(caller.sub, "f", data), d0, "s", 1);
    var a1 := IngestAction(c, p, ttl, PdfInput(caller, "s", "f", "", data), d1, "p", 2);
    var a2 := IngestAction(c, p, ttl, ContainerInput(caller, "p", "f", "", data), d2, "c", 3);
    UploadStored(c, p, ttl, caller.sub, data, d0, 1);
    var w1 := Step(EMPTY, a0);
    OneReference(map[], "s", w1.st.rows["s"], d1.objKey);
    OneReference(map[], "s", w1.st.rows["s"], d2.objKey);
    SignedStored(w1, c, p, ttl, PdfInput(caller, "s", "f", "", data), d1, "p", 2);
    var w2 := Step(w1, a1);
    OneReference(w1.st.rows, "p", w2.st.rows["p"], d2.objKey);
    SignedStored(w2, c, p, ttl, ContainerInput(caller, "p", "f", "", data), d2, "c", 3);
    var w3 := Step(w2, a2);
    ThreeCalls(EMPTY, w1, w2, w3, a0, a1, a2);
    ws, calls := [EMPTY, w1, w2, w3], [a0, a1, a2];
    var g := Grant("s", Sub, caller.sub, [Read, CoSign]);
    assert HeldBy(g, "s", caller) && g in w2.st.acl && Read in g.rights;
  }

  /** Such a container hangs below the PDF, where nobody has an entry: its creator, who could read
      both documents it was made of, cannot read it, nor can anyone. */
  lemma ContainerBelowAPdfIsUnreadable(w: World, owner: string)
    requires ThreeDeep(w, owner)
    ensures forall anyone :: Reads.Get(w.st, "c", anyone) == Err(NotFound)
  {}

  // Somebody is invited to the container: the entry goes on the PDF.
  function Invited(w: World, serial: string): World {
    Step(w, GrantAccess(GrantInput("c", Serial, serial, [])))
  }

  lemma InvitedEntries(w: World, owner: string, serial: string)
    requires ThreeDeep(w, owner)
    ensures Enabled(w, GrantAccess(GrantInput("c", Serial, serial, []))) && Invited(w, serial).st.rows == w.st.rows
    ensures Invited(w, serial).st.acl ==
              [Grant("s", Sub, owner, [Read, CoSign]), Grant("p", Serial, NormalizeSerial(serial), [Read, CoSign])]
  {
    var mine, theirs := Grant("s", Sub, owner, [Read, CoSign]), Grant("p", Serial, NormalizeSerial(serial), [Read, CoSign]);
    assert Upsert([mine], theirs) == [mine] + Upsert([], theirs);
    assert Granted(w.st, GrantInput("c", Serial, serial, [])).acl == Upsert([mine], theirs);
  }

  /** The invited person may not read the PDF, which is of another chain, and is shown it by the
      search all the same. */
  lemma SearchShowsAnUnseenPdf(w: World, owner: string, serial: string)
    requires ThreeDeep(w, owner) && NormalizeSerial(serial) != ""
    ensures var (st, invitee) := (Invited(w, serial).st, Caller("", serial, "", ""));
            && Reads.Get(st, "p", invitee) == Err(NotFound) && Reads.ShowsInSearch(st, invitee, "p")
            && Reads.Answers(st, "p", invitee, Reads.SignedPdfsOf(st.rows, "p"), Ok(st.rows["p"]))
  {
    InvitedEntries(w, owner, serial);
    var st, invitee := Invited(w, serial).st, Caller("", serial, "", "");
    assert HeldBy(st.acl[1], "p", invitee) && Read in st.acl[1].rights;
    assert "p" in Reads.SignedPdfsOf(st.rows, "p");
  }

  /** When the invited person leaves, the last entry on that chain goes, and the PDF goes with the
      container, although the owner still has an entry on the chain the PDF is of. */
  lemma LeavingTakesAnotherChainsPdf(w: World, owner: string, serial: string, now: Time)
    requires ThreeDeep(w, owner) && NormalizeSerial(serial) != "" && owner != ""
    ensures var (v, invitee) := (Invited(w, serial), Caller("", serial, "", ""));
            var a := RemoveAccess("c", invitee, now);
            && Enabled(v, a) && RemoveRefusal(v.st, "c", invitee).None?
            && "p" in Released(v.st, a) && Step(v, a).st.rows["p"].status.Deleted?
            && ChainRootId(v.st.rows["p"]) == "s" && Shared(Step(v, a).st.acl, "s")
  {
    InvitedEntries(w, owner, serial);
    var v, invitee := Invited(w, serial), Caller("", serial, "", "");
    var mine, theirs := v.st.acl[0], v.st.acl[1];
    assert HeldBy(theirs, "p", invitee) && Read in theirs.rights && theirs in v.st.acl;
    assert MayRead(v.st, v.st.rows["c"], invitee);
    assert !ChainHeld(v.st.rows, "p");
    Reads.RemovalIsCounted(v.st, "c", invitee, now);
    KeptIsFilter(v.st.acl, NotHeldBy("p", invitee), mine);
    assert mine in Apply(v.st, RemoveAccess("c", invitee, now)).acl;
    if g :| g in Apply(v.st, RemoveAccess("c", invitee, now)).acl && g.chainRoot == "p" {
      KeptIsFilter(v.st.acl, NotHeldBy("p", invitee), g);
    }
  }

  /** Two requests from the empty store: a product stores a durable document, a chain root, and
      completes it. The container is stored under the product's credential and without its
      organisation: the creator cannot read it back, nor under its own principal, although the
      chain read shows it as the chain's head. */
  lemma ContainerOfAProductIsUnreadable(
      c: Crypto, p: Packaging, ttl: int, sub: string, serial: string, product: string, tenant: string, data: Bytes, d0: Draw, d1: Draw)
      returns (ws: seq<World>, calls: seq<Action>)
    requires c.Lawful() && p.inspect(data).None? && product != "" && tenant != ""
    requires d0.objKey != NO_ID && d1.objKey != NO_ID && d0.objKey != d1.objKey
    ensures var caller := RequestCaller(sub, serial, product, tenant);
            && calls == [IngestAction(c, p, ttl, DurableInput(product, tenant, "f", None, data), d0, "s", 1),
                         IngestAction(c, p, ttl, ContainerInput(caller, "s", "f", "", data), d1, "c", 2)]
            && IsRun(ws, calls) && ws[0] == EMPTY && |ws| == 3
            && Reads.Get(ws[1].st, "s", caller).Ok? && ws[1].st.rows["s"].parentId == NO_ID
            && Reads.Get(ws[2].st, "c", IngestCaller(ContainerInput(caller, "s", "f", "", data))) == Err(NotFound)
            && Reads.Get(ws[2].st, "c", caller) == Err(NotFound)
            && Keyed(ws[2].st.rows) && Reads.GetChain(ws[2].st, caller, "s").Ok?
            && Reads.GetChain(ws[2].st, caller, "s").value.id == "c"
  {
    var caller := RequestCaller(sub, serial, product, tenant);
    var a0 := IngestAction(c, p, ttl, DurableInput(product, tenant, "f", None, data), d0, "s", 1);
    var a1 := IngestAction(c, p, ttl, ContainerInput(caller, "s", "f", "", data), d1, "c", 2);
    DurableStored(c, p, ttl, product, tenant, data, d0, 1);
    var w1 := Step(EMPTY, a0);
    OneReference(map[], "s", w1.st.rows["s"], d1.objKey);
    SignedStored(w1, c, p, ttl, ContainerInput(caller, "s", "f", "", data), d1, "c", 2);
    var w2 := Step(w1, a1);
    TwoCalls(EMPTY, w1, w2, a0, a1);
    ws, calls := [EMPTY, w1, w2], [a0, a1];
    var g := Grant("s", Product, ProductPrincipal(product, tenant), [Read]);
    assert HeldBy(g, "s", caller) && g in w1.st.acl && w2.st.acl == w1.st.acl && Read in g.rights;
    ContainerLeads(w2.st.rows);
  }

  lemma ContainerLeads(rows: map<Id, Document>)
    requires Keyed(rows) && rows.Keys == {"s", "c"} && rows["s"].kind.Source? && rows["c"].kind.Container?
    requires rows["s"].parentId == NO_ID && rows["c"].parentId == "s" && !rows["c"].status.Deleted?
    ensures Reads.LiveRows(rows, "s") != {} && Reads.LiveHead(rows, "s").id == "c"
  {
    var live := Reads.LiveRows(rows, "s");
    assert "c" in live;
    assert Reads.IsHead(rows, live, "c");
    Reads.HeadUnique(rows, live, "c", Reads.HeadOf(rows, live));
  }
}
