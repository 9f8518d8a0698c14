/**
 What processing an event and a batch leaves behind, said field by field: the row,
 the login, the outcome, and which events a batch takes.
 */
module ReconcileEffects {
  import opened Prelude
  import opened Reconcile
  import opened ReconcileProgress

  predicate NoLogin(e: DeletionEvent) { e.uid == None || e.uid == Some("") }

  /** The lookups found a reference; the second one is only made when the first found nothing. */
  predicate FoundInUse(db: Db, e: DeletionEvent, a: Answers) {
    && !NoLogin(e) && !a.ownersFail
    && (OwnsBusiness(db, e.uid.value) || (!a.usersFail && IsUser(db, e.uid.value)))
  }

  /** Both lookups were answered and found nothing, so deleteUser is called. */
  predicate FoundOrphaned(db: Db, e: DeletionEvent, a: Answers) {
    !NoLogin(e) && !a.ownersFail && !a.usersFail && !Referenced(db, e.uid.value)
  }

  predicate LoginDeleted(db: Db, e: DeletionEvent, a: Answers) { FoundOrphaned(db, e, a) && !a.deleteFails }

  /**
   An unresolved event, processed. Its row says deleted exactly if the login was found
   orphaned and deleteUser did not fail, acknowledged exactly then or if there is
   nothing to delete, and carries a note in every case but the first; the outcome says
   the same; no other event, no reference and no other login is touched.
   */
  lemma ProcessedEvent(db: Db, k: nat, a: Answers)
    requires UniqueIds(db.events) && k < |db.events|
    requires !db.events[k].authUserDeleted && !db.events[k].acknowledged
    ensures var e := db.events[k];
      var (db', outcome) := Process(db, e, a);
      && |db'.events| == |db.events|
      && (forall j :: 0 <= j < |db.events| && j != k ==> db'.events[j] == db.events[j])
      && (!a.updateLands ==> db'.events[k] == e)
      && (a.updateLands ==>
            var e' := db'.events[k];
            && e'.id == e.id && e'.uid == e.uid
            && (e'.authUserDeleted <==> LoginDeleted(db, e, a))
            && (e'.acknowledged <==> LoginDeleted(db, e, a) || FoundInUse(db, e, a) || NoLogin(e))
            && (e'.error.None? <==> LoginDeleted(db, e, a)))
      && outcome == (if NoLogin(e) then SkippedNoAuthId
                     else if FoundInUse(db, e, a) then SkippedInUse
                     else if LoginDeleted(db, e, a) then Deleted
                     else Failed)
      && db'.businesses == db.businesses && db'.users == db.users
      && (forall uid :: uid in db'.logins <==>
            uid in db.logins
            && !(FoundOrphaned(db, e, a) && (!a.deleteFails || a.deleteRemoves) && e.uid == Some(uid)))
  {
    var e := db.events[k];
    var events' := Process(db, e, a).0.events;
    forall j | 0 <= j < |db.events| && j != k
      ensures events'[j] == db.events[j]
    {
      assert db.events[j].id != e.id;
    }
  }

  /** Which of the five updates is written in which case. */
  lemma VerdictExactly(db: Db, e: DeletionEvent, a: Answers)
    ensures Verdict(db, e, a).0 ==
      if NoLogin(e) then AckNoAuthId
      else if FoundInUse(db, e, a) then AckInUse
      else if !FoundOrphaned(db, e, a) then NoteLookupFailed
      else if a.deleteFails then NoteDeleteFailed
      else MarkDeleted
  {
  }

  /** A resolved event is left alone, whichever of the two fields resolved it. */
  lemma AlreadyResolved(db: Db, e: DeletionEvent, a: Answers)
    requires e.authUserDeleted || e.acknowledged
    ensures Process(db, e, a) == (db, SkippedInUse)
  {
  }

  // ---------------------------------------------------------------- which events a batch takes

  /** Where the pending events stand in the table. */
  function PendingPositions(events: seq<DeletionEvent>): seq<nat>
    decreases |events|
  {
    if events == [] then []
    else
      var n := |events| - 1;
      PendingPositions(events[..n]) + if events[n].authUserDeleted || events[n].acknowledged then [] else [n]
  }

  predicate Increasing(positions: seq<nat>) {
    forall i, j :: 0 <= i < j < |positions| ==> positions[i] < positions[j]
  }

  predicate AtPositions(events: seq<DeletionEvent>, positions: seq<nat>, some: seq<DeletionEvent>) {
    && |positions| == |some|
    && forall j :: 0 <= j < |some| ==> positions[j] < |events| && events[positions[j]] == some[j]
  }

  predicate IsPending(events: seq<DeletionEvent>, k: nat) {
    k < |events| && !events[k].authUserDeleted && !events[k].acknowledged
  }

  lemma {:induction false} PositionsOfPending(events: seq<DeletionEvent>)
    ensures AtPositions(events, PendingPositions(events), Pending(events)) && Increasing(PendingPositions(events))
    decreases |events|
  {
    if events != [] {
      var n := |events| - 1;
      var front, last := events[..n], [events[n]];
      assert events == front + last;
      PositionsOfPending(front);
      PendingConcat(front, last);
      assert Pending(last) == if events[n].Resolved() then [] else last;
      assert forall k :: 0 <= k < n ==> front[k] == events[k];
    }
  }

  lemma {:induction false} AllPendingPositions(events: seq<DeletionEvent>, k: nat)
    ensures k in PendingPositions(events) <==> IsPending(events, k)
    decreases |events|
  {
    if events != [] {
      var n := |events| - 1;
      AllPendingPositions(events[..n], k);
      assert k < n ==> events[..n][k] == events[k];
    }
  }

  /** What is not among the first `n` of an increasing list is larger than all of them. */
  lemma LeftOutIsLater(all: seq<nat>, n: nat, k: nat)
    requires Increasing(all) && k in all && k !in Take(all, n)
    ensures |Take(all, n)| == n && forall j :: j in Take(all, n) ==> j < k
  {
    var i :| 0 <= i < |all| && all[i] == k;
    var taken := Take(all, n);
    assert forall j :: 0 <= j < |taken| ==> taken[j] == all[j] && taken[j] in taken;
    assert i >= |taken|;
  }

  /** `positions` are those of the oldest pending events, 50 of them or all. */
  ghost predicate Oldest(events: seq<DeletionEvent>, positions: seq<nat>) {
    && Increasing(positions) && |positions| <= 50
    && (forall k :: k in positions ==> IsPending(events, k))
    && (forall k: nat :: IsPending(events, k) && k !in positions ==>
          |positions| == 50 && forall j :: j in positions ==> j < k)
  }

  lemma OldestAreTaken(events: seq<DeletionEvent>)
    ensures Oldest(events, Take(PendingPositions(events), BATCH_LIMIT))
  {
    PositionsOfPending(events);
    var all := PendingPositions(events);
    var positions := Take(all, BATCH_LIMIT);
    forall k | k in positions
      ensures IsPending(events, k)
    {
      AllPendingPositions(events, k);
    }
    forall k: nat | IsPending(events, k) && k !in positions
      ensures |positions| == 50 && forall j :: j in positions ==> j < k
    {
      AllPendingPositions(events, k);
      LeftOutIsLater(all, BATCH_LIMIT, k);
    }
  }

  /**
   A batch is the oldest pending events in the table's order: at most 50, each neither
   deleted nor acknowledged, and every pending event it leaves out stands behind all
   of the 50 it takes.
   */
  lemma BatchIsOldest(events: seq<DeletionEvent>)
    ensures exists positions ::
      AtPositions(events, positions, Take(Pending(events), BATCH_LIMIT)) && Oldest(events, positions)
  {
    PositionsOfPending(events);
    OldestAreTaken(events);
    assert AtPositions(events, Take(PendingPositions(events), BATCH_LIMIT), Take(Pending(events), BATCH_LIMIT));
  }

  // ---------------------------------------------------------------- what a batch reports

  lemma {:induction false} SameVerdicts(db: Db, db': Db, todo: seq<DeletionEvent>, answers: AnswersTo)
    requires db'.businesses == db.businesses && db'.users == db.users
    ensures ProcessAll(db', todo, answers).1 == ProcessAll(db, todo, answers).1
    decreases |todo|
  {
    if todo != [] {
      var a := answers(todo[0].id);
      SameVerdicts(Process(db, todo[0], a).0, Process(db', todo[0], a).0, todo[1..], answers);
    }
  }

  /** One result for each event of the batch, in order, with the outcome it would have had on its own. */
  lemma {:induction false} BatchReports(db: Db, todo: seq<DeletionEvent>, answers: AnswersTo)
    ensures var results := ProcessAll(db, todo, answers).1;
      && |results| == |todo|
      && forall j :: 0 <= j < |todo| ==>
           results[j] == EventResult(todo[j].id, Process(db, todo[j], answers(todo[j].id)).1)
    decreases |todo|
  {
    if todo != [] {
      var db1 := Process(db, todo[0], answers(todo[0].id)).0;
      SameVerdicts(db, db1, todo[1..], answers);
      BatchReports(db, todo[1..], answers);
    }
  }
}
