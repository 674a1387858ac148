/** The sweep loop among other calls: what a pass can take, and why it ends. */
module RetentionRuns {
  import opened Types
  import opened Metadata
  import opened StoreRuns
  import opened Swaps

  predicate PastDue(until: Option<Time>, now: Time) { until.Some? && until.value < now }

  // The calls that make one more row due at this instant, and the row: a new one stored with a
  // date that has passed, an expired one given new bytes, or one whose hold is lifted.
  predicate Refills(s: State, a: Action, now: Time, id: Id) {
    match a
    case Insert(i, newId, _) => id == newId && Refusal(s, a).None? && PastDue(i.retentionUntil, now)
    case Bundle(i, newId, _) => id == newId && Refusal(s, a).None? && i.retentionUntil < now
    case Replace(i, _) =>
      Swapped(s, a, id) && s.rows[id].status.Expired? && !s.rows[id].legalHold && PastDue(s.rows[id].retentionUntil, now)
    case SetLegalHold(docId, held) =>
      id == docId && !held && id in s.rows && s.rows[id].legalHold && !Terminal(s.rows[id].status)
      && PastDue(s.rows[id].retentionUntil, now)
    case _ => false
  }

  /** A row becomes due at an instant exactly by one of these calls; no other call can add to
      what a pass has to do. */
  lemma BecomesDueIff(w: World, a: Action, now: Time, id: Id)
    requires Enabled(w, a) && IdsIssued(w)
    ensures id in Eligible(Apply(w.st, a).rows, now) && id !in Eligible(w.st.rows, now) <==> Refills(w.st, a, now, id)
  {
    if Refusal(w.st, a).None? {
      match a
      case Bundle(i, _, _) => NoFault(w.st.rows, i.sourceIds, 0, i.owner, true);
      case Rebundle(i, _) => NoFault(w.st.rows, i.absorbSourceIds, 0, i.owner, false);
      case _ =>
    }
  }

  ghost predicate Refilling(s: State, a: Action, now: Time) { exists id :: Refills(s, a, now, id) }

  predicate IsBatch(a: Action, now: Time) { a.SweepRetention? && a.cutoff == now }

  function Took(a: Action, now: Time): nat { if IsBatch(a, now) then |a.taken| else 0 }

  lemma OneRefillAtATime(s: State, a: Action, now: Time, x: Id, y: Id)
    requires Refills(s, a, now, x) && Refills(s, a, now, y)
    ensures x == y
  {}

  lemma BatchTakesItsRows(w: World, a: Action, now: Time)
    requires Enabled(w, a) && IsBatch(a, now)
    ensures a.taken <= Eligible(w.st.rows, now) && Eligible(Apply(w.st, a).rows, now) == Eligible(w.st.rows, now) - a.taken
  {}

  // What is due after a call: less what a batch took, and at most one row more.
  lemma DueAfterCall(w: World, a: Action, now: Time)
    requires Enabled(w, a) && IdsIssued(w)
    ensures Took(a, now) + |Eligible(Apply(w.st, a).rows, now)| <=
              |Eligible(w.st.rows, now)| + (if Refilling(w.st, a, now) then 1 else 0)
  {
    var before, after := Eligible(w.st.rows, now), Eligible(Apply(w.st, a).rows, now);
    if IsBatch(a, now) {
      BatchTakesItsRows(w, a, now);
      assert |before - a.taken| == |before| - |a.taken|;
    } else {
      forall id | id in after && id !in before ensures Refills(w.st, a, now, id) {
        BecomesDueIff(w, a, now, id);
      }
      if id :| Refills(w.st, a, now, id) {
        forall x | x in after && x !in before ensures x == id {
          OneRefillAtATime(w.st, a, now, x, id);
        }
        Fits(after, before + {id});
      } else {
        Fits(after, before);
      }
    }
  }

  lemma Fits(a: set<Id>, b: set<Id>)
    requires a <= b
    ensures |a| <= |b|
  {
    assert b == a + (b - a);
  }

  function TookInAll(actions: seq<Action>, now: Time): nat {
    if actions == [] then 0 else TookInAll(actions[..|actions| - 1], now) + Took(actions[|actions| - 1], now)
  }

  ghost function RefillsInAll(ws: seq<World>, actions: seq<Action>, now: Time): nat
    requires |ws| == |actions| + 1
    decreases |actions|
  {
    if actions == [] then 0
    else
      var n := |actions| - 1;
      RefillsInAll(ws[..n + 1], actions[..n], now) + (if Refilling(ws[n].st, actions[n], now) then 1 else 0)
  }

  lemma RunWithoutLast(ws: seq<World>, actions: seq<Action>)
    requires IsRun(ws, actions) && Inv(ws[0]) && actions != []
    ensures var n := |actions| - 1;
            && IsRun(ws[..n + 1], actions[..n]) && Enabled(ws[n], actions[n]) && IdsIssued(ws[n])
            && ws[n + 1].st == Apply(ws[n].st, actions[n])
  {
    ReachableInv(ws, actions);
  }

  /** Over any run, whatever is called between the batches: the rows the batches of one instant
      expire, and those still due at the end, are no more than were due at the start and became
      due since. */
  lemma {:induction false} PassIsBounded(ws: seq<World>, actions: seq<Action>, now: Time)
    requires IsRun(ws, actions) && Inv(ws[0])
    ensures TookInAll(actions, now) + |Eligible(ws[|actions|].st.rows, now)| <=
              |Eligible(ws[0].st.rows, now)| + RefillsInAll(ws, actions, now)
    decreases |actions|
  {
    if actions != [] {
      var n := |actions| - 1;
      RunWithoutLast(ws, actions);
      PassIsBounded(ws[..n + 1], actions[..n], now);
      DueAfterCall(ws[n], actions[n], now);
    }
  }

  function BatchesInAll(actions: seq<Action>, now: Time): nat {
    if actions == [] then 0
    else BatchesInAll(actions[..|actions| - 1], now) + (if IsBatch(actions[|actions| - 1], now) then 1 else 0)
  }

  lemma {:induction false} FullBatchesTake(actions: seq<Action>, now: Time, batch: nat)
    requires forall a | a in actions && IsBatch(a, now) :: |a.taken| == batch
    ensures BatchesInAll(actions, now) * batch == TookInAll(actions, now)
    decreases |actions|
  {
    if actions != [] {
      var init, last := actions[..|actions| - 1], actions[|actions| - 1];
      assert last in actions && forall a | a in init :: a in actions;
      FullBatchesTake(init, now, batch);
      if IsBatch(last, now) {
        assert (BatchesInAll(init, now) + 1) * batch == BatchesInAll(init, now) * batch + batch;
      }
    }
  }

  /** A pass goes on only while its batches come back full. So with any calls in between it goes
      on for at most as many batches as the rows due at the start, and those made due since, can
      fill: it ends unless new, revived or released rows keep it supplied. */
  lemma PassEndsUnlessRefilled(ws: seq<World>, actions: seq<Action>, now: Time, batch: nat)
    requires IsRun(ws, actions) && Inv(ws[0])
    requires forall a | a in actions && IsBatch(a, now) :: |a.taken| == batch
    ensures BatchesInAll(actions, now) * batch <= |Eligible(ws[0].st.rows, now)| + RefillsInAll(ws, actions, now)
  {
    PassIsBounded(ws, actions, now);
    FullBatchesTake(actions, now, batch);
  }

  lemma SparedBySteps(w: World, a: Action, now: Time, id: Id)
    requires Enabled(w, a) && IdsIssued(w) && id !in Eligible(w.st.rows, now) && !Refills(w.st, a, now, id)
    ensures id !in Eligible(Apply(w.st, a).rows, now)
  {
    BecomesDueIff(w, a, now, id);
  }

  /** Among any other calls, whenever they come: a pass takes a row only if the row was due when
      the pass began or was made due since, by being stored with a passed date, given new bytes
      after it had expired, or released from a hold. A row that was held, undated or not yet due,
      and to which none of this happens, is spared by every batch. */
  lemma {:induction false} PassSparesWhatIsNotDue(ws: seq<World>, actions: seq<Action>, now: Time, id: Id)
    requires IsRun(ws, actions) && Inv(ws[0]) && id !in Eligible(ws[0].st.rows, now)
    requires forall i | 0 <= i < |actions| :: !Refills(ws[i].st, actions[i], now, id)
    ensures forall i | 0 <= i < |actions| && IsBatch(actions[i], now) :: id !in actions[i].taken
    ensures id !in Eligible(ws[|actions|].st.rows, now)
  {
    ReachableInv(ws, actions);
    for n := 0 to |actions|
      invariant id !in Eligible(ws[n].st.rows, now)
      invariant forall i | 0 <= i < n && IsBatch(actions[i], now) :: id !in actions[i].taken
    {
      if IsBatch(actions[n], now) {
        BatchTakesItsRows(ws[n], actions[n], now);
      }
      SparedBySteps(ws[n], actions[n], now, id);
    }
  }
}
