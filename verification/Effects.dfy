/** What the smaller writes mean for those who read afterwards. */
module Effects {
  import opened Types
  import opened Metadata
  import Reads
  import opened StoreRuns

  // ---- Access ----------------------------------------------------------------------------

  /** A document that starts a chain can be read by its owner and by nobody else. */
  lemma NewChainIsPrivate(w: World, input: InsertInput, id: Id, now: Time, caller: Caller)
    requires Inv(w) && Enabled(w, Insert(input, id, now)) && input.parentId == NO_ID
    ensures var (s', mine) := (Apply(w.st, Insert(input, id, now)), OwnerGrant(input, id));
            Reads.Get(s', id, caller) ==
              if HeldBy(mine, id, caller) && TenantMatches(s'.rows[id], caller) then Ok(NewRow(input, id, now)) else Err(NotFound)
  {
    var s', mine := Apply(w.st, Insert(input, id, now)), OwnerGrant(input, id);
    assert s'.acl == w.st.acl + [mine] && Read in mine.rights;
    assert forall g | g in w.st.acl :: g.chainRoot != id;
    assert mine in s'.acl;
  }

  lemma {:induction false} UpsertExact(acl: seq<Grant>, g: Grant, h: Grant)
    requires Distinct(acl)
    ensures h in Upsert(acl, g) <==> h == g || (h in acl && !SameEntry(h, g))
  {
    if acl == [] {
    } else if SameEntry(acl[0], g) {
      assert acl[0].(rights := g.rights) == g;
      assert forall i | 1 <= i < |acl| :: !SameEntry(acl[0], acl[i]);
    } else {
      UpsertExact(acl[1..], g, h);
    }
  }

  /** A grant gives the principal exactly the rights named, whatever it held before, on the
      whole chain of the document; no other entry changes. */
  lemma GrantGivesExactly(w: World, input: GrantInput, h: Grant)
    requires Inv(w) && input.docId in w.st.rows
    ensures var principal := if input.kind.Serial? then NormalizeSerial(input.principal) else input.principal;
            var rights := if input.rights == [] then [Read, CoSign] else input.rights;
            var g := Grant(ChainRootId(w.st.rows[input.docId]), input.kind, principal, rights);
            h in Apply(w.st, GrantAccess(input)).acl <==> h == g || (h in w.st.acl && !SameEntry(h, g))
  {
    var principal := if input.kind.Serial? then NormalizeSerial(input.principal) else input.principal;
    var rights := if input.rights == [] then [Read, CoSign] else input.rights;
    UpsertExact(w.st.acl, Grant(ChainRootId(w.st.rows[input.docId]), input.kind, principal, rights), h);
  }

  /** A grant to an identity code settles what the person may do, however either was typed: who
      comes with a spelling of the same canonical form, and is named by no other entry of the
      chain, reads the document from then on exactly when reading is among the rights of this
      last grant and the document is of the caller's organisation, if the caller acts for one. */
  lemma SerialGrantMatchesAnySpelling(w: World, input: GrantInput, caller: Caller)
    requires Inv(w) && input.docId in w.st.rows && input.kind.Serial?
    requires NormalizeSerial(caller.serial) == NormalizeSerial(input.principal) != ""
    requires forall g | g in w.st.acl && HeldBy(g, ChainRootId(w.st.rows[input.docId]), caller) :: g.kind.Serial?
    ensures Reads.Get(Apply(w.st, GrantAccess(input)), input.docId, caller).Ok? <==>
            (input.rights == [] || Read in input.rights) && TenantMatches(w.st.rows[input.docId], caller)
  {
    var root := ChainRootId(w.st.rows[input.docId]);
    var rights := if input.rights == [] then [Read, CoSign] else input.rights;
    var g := Grant(root, Serial, NormalizeSerial(input.principal), rights);
    GrantGivesExactly(w, input, g);
    assert HeldBy(g, root, caller);
    forall h | h in Apply(w.st, GrantAccess(input)).acl && HeldBy(h, root, caller) ensures h == g {
      GrantGivesExactly(w, input, h);
    }
  }

  // ---- The freeze, the date and the bytes ----------------------------------------------------

  /** A freeze set through any row of a chain shows on every row of that chain, and on no other
      but the row the chain is named after, should that hang below a row that is gone. */
  lemma FreezeShowsOnTheWholeChain(s: State, docId: Id, frozen: bool, now: Time, id: Id, caller: Caller)
    requires Keyed(s.rows) && FreezeRefusal(s, docId).None?
    requires Reads.Get(s, id, caller).Ok?
    ensures var r := Reads.Get(Apply(s, SetResultFreeze(docId, frozen, now)), id, caller);
            var (root, mine) := (ChainRootId(s.rows[docId]), ChainRootId(s.rows[id]));
            && r.Ok?
            && r.value.resultFrozen ==
                 if mine == root || (id == root && mine !in s.rows) then frozen
                 else Reads.Get(s, id, caller).value.resultFrozen
  {
    var (root, d) := (ChainRootId(s.rows[docId]), s.rows[id]);
    var s' := Apply(s, SetResultFreeze(docId, frozen, now));
    assert s'.acl == s.acl && s'.rows == s.rows[root := s.rows[root].(resultFrozen := frozen, updatedAt := now)];
    assert ChainRootId(s'.rows[id]) == ChainRootId(d) && TenantMatches(s'.rows[id], caller) == TenantMatches(d, caller);
  }

  /** Rolling retention forward leaves a dated row the later of the two instants and an undated
      row undated, and touches nothing else anyone can read. */
  lemma ExtensionIsTheLater(s: State, docId: Id, owner: string, until: Time, now: Time)
    requires docId in s.rows && s.rows[docId].owner == owner
    ensures var (d, s') := (s.rows[docId], Apply(s, ExtendRetention(docId, owner, until, now)));
            && s'.acl == s.acl && s'.rows.Keys == s.rows.Keys
            && (forall id | id in s.rows && id != docId :: s'.rows[id] == s.rows[id])
            && s'.rows[docId].(updatedAt := d.updatedAt, retentionUntil := d.retentionUntil) == d
            && match d.retentionUntil
               case None => s'.rows[docId].retentionUntil.None?
               case Some(t) =>
                 && s'.rows[docId].retentionUntil.Some?
                 && var t' := s'.rows[docId].retentionUntil.value;
                    t <= t' && until <= t' && (t' == t || t' == until)
  {}

  /** New bytes bring an expired row back to life, but not its retention: a later sweep takes it
      again exactly when it comes after the row's old date. */
  lemma RevivedRowIsDueAgainIff(s: State, input: ReplaceInput, now: Time, swept: Time, cutoff: Time)
    requires input.id in s.rows && Due(s.rows[input.id], swept)
    requires ReplaceRefusal(Apply(s, SweepRetention({input.id}, swept, now)), input).None?
    ensures var s' := Apply(Apply(s, SweepRetention({input.id}, swept, now)), Replace(input, now));
            && s'.rows[input.id].status.Signed? && s'.rows[input.id].storageRef == input.storageRef
            && (input.id in Eligible(s'.rows, cutoff) <==> s.rows[input.id].retentionUntil.value < cutoff)
  {
    var d := s.rows[input.id];
    var s1 := Apply(s, SweepRetention({input.id}, swept, now));
    assert s1.rows[input.id] == ExpiredRow(d, now);
    assert Apply(s1, Replace(input, now)).rows[input.id] == ReplacedRow(ExpiredRow(d, now), input, now);
  }

  // ---- History -----------------------------------------------------------------------------------

  /** The history sweep keeps, of the access list, exactly the entries whose chain still has a row. */
  lemma SweptHistoryKeepsLiveEntries(s: State, taken: set<Id>, before: Time, g: Grant)
    ensures var s' := Apply(s, SweepHistory(taken, before));
            && s'.rows == s.rows - taken
            && (g in s'.acl <==> g in s.acl && exists id | id in s'.rows :: ChainRootId(s'.rows[id]) == g.chainRoot)
  {
    KeptIsFilter(s.acl, ChainIn(Roots(s.rows - taken)), g);
  }

  // Every entry of a chain that still has a row is still there.
  ghost predicate LiveEntriesKept(s: State, s': State) {
    forall g | g in s.acl && g.chainRoot in Roots(s'.rows) :: g in s'.acl
  }

  /** Erasing one history chain takes only its owner's rows, none of them live or held, but all
      the chain's entries. So entries of a chain that still has a row survive exactly when no
      row of the chain belongs to someone else, or nobody had access to it anyway. */
  lemma ErasedHistoryKeepsLiveEntries(s: State, owner: string, root: Id)
    requires HistoryRefusal(s, owner, root).None?
    ensures var s' := Apply(s, DeleteHistoryChain(owner, root));
            && (forall id | id in s.rows && id !in s'.rows ::
                  && ChainRootId(s.rows[id]) == root && s.rows[id].owner == owner
                  && Terminal(s.rows[id].status) && !s.rows[id].legalHold)
            && (forall id | id in s'.rows :: id in s.rows && s'.rows[id] == s.rows[id])
            && (LiveEntriesKept(s, s') <==>
                  || (forall id | id in s.rows && ChainRootId(s.rows[id]) == root :: s.rows[id].owner == owner)
                  || !Shared(s.acl, root))
  {
    var s' := Apply(s, DeleteHistoryChain(owner, root));
    forall g ensures g in s'.acl <==> g in s.acl && g.chainRoot != root {
      KeptIsFilter(s.acl, ChainNotIn({root}), g);
    }
    if id :| id in s.rows && ChainRootId(s.rows[id]) == root && s.rows[id].owner != owner {
      assert id in s'.rows && root in Roots(s'.rows);
    }
  }

  // What an absorbing call drops from the access list, and from the rows.
  function AbsorbedBy(a: Action): set<Id> {
    match a
    case Bundle(i, _, _) => Elements(i.sourceIds)
    case Rebundle(i, _) => Elements(i.absorbSourceIds)
    case _ => {}
  }

  /** Absorbing a source drops the entries of the chain it is named after. Entries of chains that
      still have a row survive exactly when no absorbed source anyone has an entry on has a row
      below it that stays. */
  lemma AbsorbingKeepsLiveEntriesIff(w: World, a: Action)
    requires Enabled(w, a) && IdsIssued(w) && Absorbs(a) && Refusal(w.st, a).None?
    ensures var (s', gone) := (Apply(w.st, a), AbsorbedBy(a));
            LiveEntriesKept(w.st, s') <==>
              forall x | x in w.st.rows && x !in gone && w.st.rows[x].parentId in gone :: !Shared(w.st.acl, w.st.rows[x].parentId)
  {
    var s', gone := Apply(w.st, a), AbsorbedBy(a);
    EntriesAfterAbsorbing(w, a);
    RowsAfterAbsorbing(w, a);
    forall x | x in w.st.rows && x !in gone && w.st.rows[x].parentId in gone
      ensures w.st.rows[x].parentId != NO_ID && w.st.rows[x].parentId in Roots(s'.rows)
    {
      assert x in s'.rows && ChainRootId(s'.rows[x]) == w.st.rows[x].parentId;
    }
    forall root | root in gone && root in Roots(s'.rows)
      ensures exists x | x in w.st.rows :: x !in gone && w.st.rows[x].parentId == root
    {
      var x :| x in s'.rows && ChainRootId(s'.rows[x]) == root;
      assert x in w.st.rows && x !in gone && w.st.rows[x].parentId == root;
    }
  }

  lemma EntriesAfterAbsorbing(w: World, a: Action)
    requires Absorbs(a) && Refusal(w.st, a).None?
    ensures forall g | g in w.st.acl :: g in Apply(w.st, a).acl <==> g.chainRoot !in AbsorbedBy(a)
  {
    forall g | g in w.st.acl ensures g in Apply(w.st, a).acl <==> g.chainRoot !in AbsorbedBy(a) {
      match a
      case Bundle(i, id, _) =>
        KeptIsFilter(w.st.acl + [Grant(id, Sub, i.owner, [Read, CoSign])], ChainNotIn(Elements(i.sourceIds)), g);
      case Rebundle(i, _) => KeptIsFilter(w.st.acl, ChainNotIn(Elements(i.absorbSourceIds)), g);
    }
  }

  lemma RowsAfterAbsorbing(w: World, a: Action)
    requires Enabled(w, a) && IdsIssued(w) && Absorbs(a) && Refusal(w.st, a).None?
    ensures var (rows', gone) := (Apply(w.st, a).rows, AbsorbedBy(a));
            && NO_ID !in gone && gone <= w.st.rows.Keys
            && (forall x | x in w.st.rows :: x in rows' <==> x !in gone)
            && (forall x | x in rows' && x in w.st.rows ::
                  rows'[x].parentId == w.st.rows[x].parentId && rows'[x].id == w.st.rows[x].id == x)
            && (forall x | x in rows' && x !in w.st.rows :: rows'[x].parentId == NO_ID && rows'[x].id == x && x !in gone)
  {
    match a
    case Bundle(i, _, _) => NoFault(w.st.rows, i.sourceIds, 0, i.owner, true);
    case Rebundle(i, _) => NoFault(w.st.rows, i.absorbSourceIds, 0, i.owner, false);
  }

  // The owner uploads, invites the co-signer by identity code, the co-signer signs, both rows
  // run out, and the owner erases the record.
  const CO_SIGNER: Caller := Caller("signer", "PNO", "", "")
  const UPLOAD: Action := Insert(Upload("owner", NO_ID, None, None, "k1"), "s", 1)
  const INVITE: Action := GrantAccess(GrantInput("s", Serial, "pno ", []))
  const SIGN: Action := Insert(Upload("signer", "s", Some(Container), Some(Signed), "k2"), "c", 2)
  const LAPSE: Action := SweepRetention({"s", "c"}, 10, 11)
  const ERASE: Action := DeleteHistoryChain("owner", "s")

  function Upload(owner: string, parent: Id, kind: Option<Kind>, status: Option<Status>, key: Id): InsertInput {
    InsertInput(owner, "", kind, parent, "f", key, "h", "", 1, status, "w", "", None, None, Some(9), [])
  }

  const SOURCE: Document := NewRow(UPLOAD.insert, "s", 1)
  const CONTAINER: Document := NewRow(SIGN.insert, "c", 2)
  const OWNERS: Grant := Grant("s", Sub, "owner", [Read, CoSign])
  const CO_SIGNERS: Grant := Grant("s", Serial, "PNO", [Read, CoSign])

  const UPLOADED: World := World(State(map["s" := SOURCE], [OWNERS]), {"s"})
  const INVITED: World := World(State(map["s" := SOURCE], [OWNERS, CO_SIGNERS]), {"s"})
  const SIGNED: World := World(State(map["s" := SOURCE, "c" := CONTAINER], [OWNERS, CO_SIGNERS]), {"s", "c"})
  const LAPSED: World :=
    World(State(map["s" := ExpiredRow(SOURCE, 11), "c" := ExpiredRow(CONTAINER, 11)], [OWNERS, CO_SIGNERS]), {"s", "c"})
  const ERASED: World := World(State(map["c" := ExpiredRow(CONTAINER, 11)], []), {"s", "c"})

  lemma TypedAndCanonical()
    ensures NormalizeSerial("pno ") == "PNO" && NormalizeSerial("PNO") == "PNO"
  {
    assert TrimRight("pno ") == "pno" && Upper("pno") == "PNO" && Upper("PNO") == "PNO";
  }

  lemma OwnerUploads()
    ensures Enabled(EMPTY, UPLOAD) && Step(EMPTY, UPLOAD) == UPLOADED
  {}

  lemma OwnerInvites()
    ensures Enabled(UPLOADED, INVITE) && Step(UPLOADED, INVITE) == INVITED
  {
    TypedAndCanonical();
    assert Upsert([OWNERS], CO_SIGNERS) == [OWNERS] + Upsert([], CO_SIGNERS);
    assert Granted(UPLOADED.st, INVITE.grant).acl == Upsert([OWNERS], CO_SIGNERS);
  }

  lemma CoSignerSigns()
    ensures Enabled(INVITED, SIGN) && Step(INVITED, SIGN) == SIGNED
  {
    assert forall id | id in INVITED.st.rows :: INVITED.st.rows[id].storageRef == "k1";
    assert !InsertBlocked(INVITED.st, SIGN.insert);
    assert SIGNED.st.rows == INVITED.st.rows["c" := CONTAINER];
  }

  lemma BothLapse()
    ensures Enabled(SIGNED, LAPSE) && Step(SIGNED, LAPSE) == LAPSED
  {
    assert "s" in Eligible(SIGNED.st.rows, 10) && "c" in Eligible(SIGNED.st.rows, 10);
    assert ExpireRows(SIGNED.st.rows, {"s", "c"}, 11) == LAPSED.st.rows;
  }

  lemma OwnerErases()
    ensures Enabled(LAPSED, ERASE) && Step(LAPSED, ERASE) == ERASED
  {
    var rows := LAPSED.st.rows;
    assert OwnedChain(rows, "owner", "s") == {"s"};
    assert HistoryRefusal(LAPSED.st, "owner", "s").None?;
    assert rows - {"s"} == ERASED.st.rows;
    var kept := Kept(LAPSED.st.acl, ChainNotIn({"s"}));
    assert kept == [] || kept[0] in kept;
    forall g ensures g !in kept {
      KeptIsFilter(LAPSED.st.acl, ChainNotIn({"s"}), g);
    }
  }

  lemma CoSignerIsLockedOut()
    ensures Reads.Get(LAPSED.st, "c", CO_SIGNER).Ok?
    ensures Reads.Get(ERASED.st, "c", CO_SIGNER) == Err(NotFound)
  {
    TypedAndCanonical();
    assert CO_SIGNERS in LAPSED.st.acl && HeldBy(CO_SIGNERS, "s", CO_SIGNER) && Read in CO_SIGNERS.rights;
  }

  /** It does happen, in five calls from the empty store: the co-signer's expired container
      outlives the owner's erased record, and the co-signer, who could still read its row, no
      longer can. */
  lemma ErasingMayLockOutACoSigner()
    ensures IsRun([EMPTY, UPLOADED, INVITED, SIGNED, LAPSED, ERASED], [UPLOAD, INVITE, SIGN, LAPSE, ERASE])
    ensures Reads.Get(LAPSED.st, "c", CO_SIGNER).Ok? && "c" in ERASED.st.rows
    ensures Reads.Get(ERASED.st, "c", CO_SIGNER) == Err(NotFound)
  {
    OwnerUploads();
    OwnerInvites();
    CoSignerSigns();
    BothLapse();
    OwnerErases();
    CoSignerIsLockedOut();
    FiveCalls(EMPTY, UPLOADED, INVITED, SIGNED, LAPSED, ERASED, UPLOAD, INVITE, SIGN, LAPSE, ERASE);
  }

  lemma FiveCalls(
      w0: World, w1: World, w2: World, w3: World, w4: World, w5: World, a0: Action, a1: Action, a2: Action, a3: Action, a4: Action)
    requires Enabled(w0, a0) && w1 == Step(w0, a0) && Enabled(w1, a1) && w2 == Step(w1, a1)
    requires Enabled(w2, a2) && w3 == Step(w2, a2) && Enabled(w3, a3) && w4 == Step(w3, a3)
    requires Enabled(w4, a4) && w5 == Step(w4, a4)
    ensures IsRun([w0, w1, w2, w3, w4, w5], [a0, a1, a2, a3, a4])
  {}

  // Instead, once the container is signed, the owner bundles the source it was made of.
  const BUNDLE: Action := Action.Bundle(BundleInput("owner", "", ["s"], "b", "k3", "h", "", 1, "w", "", 9, []), "b", 3)
  const BUNDLED: Grant := Grant("b", Sub, "owner", [Read, CoSign])

  lemma OwnerBundles(w: World)
    requires w == Step(SIGNED, BUNDLE)
    ensures Enabled(SIGNED, BUNDLE)
    ensures w.st == State(map["c" := CONTAINER, "b" := BundleRow(BUNDLE.bundle, "b", 3)], [BUNDLED])
  {
    var acl := SIGNED.st.acl + [BUNDLED];
    assert forall id | id in SIGNED.st.rows :: SIGNED.st.rows[id].storageRef == "k1" || SIGNED.st.rows[id].storageRef == "k2";
    assert AbsorbRefusal(SIGNED.st.rows, "s", "owner").None?;
    assert FirstFault(SIGNED.st.rows, ["s"], 0, "owner", true).None?;
    assert Elements(["s"]) == {"s"};
    assert w.st.rows == map["c" := CONTAINER, "b" := BundleRow(BUNDLE.bundle, "b", 3)];
    assert acl == [OWNERS, CO_SIGNERS] + [BUNDLED];
    KeptSplits([OWNERS, CO_SIGNERS], [BUNDLED], ChainNotIn({"s"}));
    KeptSplits([OWNERS], [CO_SIGNERS], ChainNotIn({"s"}));
    assert [OWNERS] + [CO_SIGNERS] == [OWNERS, CO_SIGNERS];
  }

  /** It does happen, in four calls from the empty store: the owner bundles a source after it was
      signed. The signed container stays, live and stored, and nobody at all can read it. */
  lemma BundlingMayStrandASignedContainer(w: World)
    requires w == Step(SIGNED, BUNDLE)
    ensures IsRun([EMPTY, UPLOADED, INVITED, SIGNED, w], [UPLOAD, INVITE, SIGN, BUNDLE])
    ensures "c" in w.st.rows && w.st.rows["c"].status.Signed? && w.st.rows["c"].storageRef != NO_ID
    ensures forall anyone :: Reads.Get(w.st, "c", anyone) == Err(NotFound)
  {
    OwnerUploads();
    OwnerInvites();
    CoSignerSigns();
    OwnerBundles(w);
    FourCalls(EMPTY, UPLOADED, INVITED, SIGNED, w, UPLOAD, INVITE, SIGN, BUNDLE);
  }

  lemma FourCalls(w0: World, w1: World, w2: World, w3: World, w4: World, a0: Action, a1: Action, a2: Action, a3: Action)
    requires Enabled(w0, a0) && w1 == Step(w0, a0) && Enabled(w1, a1) && w2 == Step(w1, a1)
    requires Enabled(w2, a2) && w3 == Step(w2, a2) && Enabled(w3, a3) && w4 == Step(w3, a3)
    ensures IsRun([w0, w1, w2, w3, w4], [a0, a1, a2, a3])
  {}
}
