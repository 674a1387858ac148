/** The replacement in place is the one call that gives a stored row other bytes and the one
    that brings an expired row back: exactly when it does, at one call and over whole runs. */
module Swaps {
  import opened Types
  import opened Metadata
  import opened StoreRuns

  // What the store checks before it replaces this row's bytes.
  predicate Swapped(s: State, a: Action, id: Id) {
    && a.Replace? && a.replace.id == id && ValidClass(a.replace.preservationClass)
    && id in s.rows && !s.rows[id].status.Deleted? && !s.rows[id].kind.Source?
    && s.rows[id].contentHash == a.replace.expectedHash
  }

  lemma SwappedIsAccepted(s: State, a: Action, id: Id)
    ensures Swapped(s, a, id) <==> a.Replace? && a.replace.id == id && Refusal(s, a).None?
  {}

  // ---- Held rows -------------------------------------------------------------------------------

  lemma OnlySwapsLandOnHeld(w: World, a: Action, id: Id)
    requires Enabled(w, a) && IdsIssued(w) && HeldLive(w.st.rows, id)
    ensures Landing(w.st, a).Some? && Landing(w.st, a).value.target == id <==> Swapped(w.st, a, id)
  {}

  /** The hold keeps a live row, not the bytes it was placed on: they make way for others at a
      call exactly when the call replaces that row and meets the replacement's own tests. */
  lemma HeldBytesMakeWayIff(w: World, a: Action, id: Id)
    requires Enabled(w, a) && Inv(w) && HeldLive(w.st.rows, id)
    requires a != SetLegalHold(id, false)
    ensures HeldLive(Apply(w.st, a).rows, id)
    ensures Apply(w.st, a).rows[id].storageRef != w.st.rows[id].storageRef <==> Swapped(w.st, a, id)
    ensures !Swapped(w.st, a, id) ==> SameDigest(w.st.rows[id], Apply(w.st, a).rows[id])
  {
    HoldKept(w, a, id);
    BytesMove(w, a);
    StorageStaysMatched(w, a);
    assert w.st.rows[id].storageRef in LiveRefs(w.st.rows);
    SwappedIsAccepted(w.st, a, id);
    OnlySwapsLandOnHeld(w, a, id);
  }

  /** Over any run that does not lift the hold, a held row nobody replaces keeps the very object
      and digest it had. */
  lemma {:induction false} HeldBytesStayUnlessSwapped(ws: seq<World>, actions: seq<Action>, id: Id)
    requires IsRun(ws, actions) && Inv(ws[0]) && HeldLive(ws[0].st.rows, id)
    requires forall i | 0 <= i < |actions| :: actions[i] != SetLegalHold(id, false) && !Swapped(ws[i].st, actions[i], id)
    ensures HeldLive(ws[|actions|].st.rows, id)
    ensures ws[|actions|].st.rows[id].storageRef == ws[0].st.rows[id].storageRef
    ensures SameDigest(ws[0].st.rows[id], ws[|actions|].st.rows[id])
  {
    ReachableInv(ws, actions);
    for n := 0 to |actions|
      invariant HeldLive(ws[n].st.rows, id)
      invariant ws[n].st.rows[id].storageRef == ws[0].st.rows[id].storageRef
      invariant SameDigest(ws[0].st.rows[id], ws[n].st.rows[id])
    {
      HeldBytesMakeWayIff(ws[n], actions[n], id);
    }
  }

  // ---- Expired rows ----------------------------------------------------------------------------

  predicate Lives(rows: map<Id, Document>, id: Id) { id in rows && !Terminal(rows[id].status) }

  /** No call but an accepted replacement brings an expired row back to life. */
  lemma ExpiredRowRevivesIff(w: World, a: Action, id: Id)
    requires Enabled(w, a) && IdsIssued(w) && id in w.st.rows && Terminal(w.st.rows[id].status)
    ensures Lives(Apply(w.st, a).rows, id) <==> Swapped(w.st, a, id)
  {
    if Refusal(w.st, a).None? {
      match a
      case Bundle(i, _, _) => NoFault(w.st.rows, i.sourceIds, 0, i.owner, true);
      case Rebundle(i, _) => NoFault(w.st.rows, i.absorbSourceIds, 0, i.owner, false);
      case _ =>
    }
  }

  lemma GoneStaysGone(w: World, a: Action, id: Id)
    requires Enabled(w, a) && IdsIssued(w) && id in w.issued && !Lives(w.st.rows, id)
    ensures id in Step(w, a).issued
    ensures Lives(Apply(w.st, a).rows, id) <==> Swapped(w.st, a, id)
  {
    if id in w.st.rows {
      ExpiredRowRevivesIff(w, a, id);
    } else if id in Apply(w.st, a).rows {
      RowsContinue(w, a, id);
    }
  }

  /** Over any run an expired row lives again at some moment exactly when some call of the run
      is a replacement that meets its tests; otherwise it is expired, deleted or erased
      throughout. */
  lemma {:induction false} ExpiredRowLivesAgainIff(ws: seq<World>, actions: seq<Action>, id: Id)
    requires IsRun(ws, actions) && Inv(ws[0])
    requires id in ws[0].st.rows && Terminal(ws[0].st.rows[id].status)
    ensures (exists j | 0 <= j < |ws| :: Lives(ws[j].st.rows, id)) <==>
            (exists i | 0 <= i < |actions| :: Swapped(ws[i].st, actions[i], id))
  {
    ReachableInv(ws, actions);
    if i :| 0 <= i < |actions| && Swapped(ws[i].st, actions[i], id) {
      assert Lives(ws[i + 1].st.rows, id);
    } else {
      for n := 0 to |actions|
        invariant id in ws[n].issued
        invariant forall j | 0 <= j <= n :: !Lives(ws[j].st.rows, id)
      {
        GoneStaysGone(ws[n], actions[n], id);
      }
    }
  }

  // ---- A held container whose bytes are replaced ---------------------------------------------------

  /** It does happen, in three calls from the empty store: a signed container is stored, held,
      and replaced. It is still held, live and stored, with other bytes. */
  lemma HeldContainerIsReplaced() returns (ws: seq<World>, actions: seq<Action>)
    ensures IsRun(ws, actions) && |actions| == 3 && ws[0] == EMPTY
    ensures HeldLive(ws[2].st.rows, "c") && ws[2].st.rows["c"].kind.Container? && HeldLive(ws[3].st.rows, "c")
    ensures Swapped(ws[2].st, actions[2], "c")
    ensures ws[3].st.rows["c"].storageRef != ws[2].st.rows["c"].storageRef
    ensures ws[3].st.rows["c"].contentHash != ws[2].st.rows["c"].contentHash
  {
    var input := InsertInput(
      "owner", "", Some(Container), NO_ID, "a.asice", "k1", "h1", "", 1, Some(Signed), "key", "", None, None, Some(9), []);
    actions := [Insert(input, "c", 1), SetLegalHold("c", true), Replace(ReplaceInput("c", "h1", "k2", "h2", 2, "key", ""), 2)];
    var w1 := Step(EMPTY, actions[0]);
    assert w1.st.rows == map["c" := NewRow(input, "c", 1)];
    var w2 := Step(w1, actions[1]);
    assert w2.st.rows == map["c" := NewRow(input, "c", 1).(legalHold := true)];
    assert forall id | id in w2.st.rows :: w2.st.rows[id].storageRef == "k1";
    ws := [EMPTY, w1, w2, Step(w2, actions[2])];
  }
}
