/**
 reconcile-account-deletions: the tables, the calls `processEvent` makes, and one
 event or one batch processed with nobody else at work.
 */
module Reconcile {
  import opened Prelude

  const BATCH_LIMIT := 50

  datatype DeletionEvent = DeletionEvent(
    id: string,
    uid: Option<string>,           // owner_auth_user_id
    authUserDeleted: bool,
    acknowledged: bool,            // acknowledged_at is set
    error: Option<string>)         // auth_delete_error
  {
    predicate Resolved() { authUserDeleted || acknowledged }
  }

  /** The event table in deleted_at order, the logins, and who refers to which login. */
  datatype Db = Db(
    events: seq<DeletionEvent>,
    logins: set<string>,
    businesses: map<string, string>,   // business id to owner_id
    users: map<string, string>)        // user id to auth_user_id

  ghost predicate UniqueIds(events: seq<DeletionEvent>) {
    forall i, j :: 0 <= i < j < |events| ==> events[i].id != events[j].id
  }

  /** The counts of the two lookups are above zero. */
  predicate OwnsBusiness(db: Db, uid: string) { exists b :: b in db.businesses && db.businesses[b] == uid }
  predicate IsUser(db: Db, uid: string) { exists u :: u in db.users && db.users[u] == uid }
  predicate Referenced(db: Db, uid: string) { OwnsBusiness(db, uid) || IsUser(db, uid) }

  datatype Outcome = Deleted | SkippedInUse | SkippedNoAuthId | Failed

  /** The five updates of the event row. */
  datatype Change = AckNoAuthId | NoteLookupFailed | AckInUse | NoteDeleteFailed | MarkDeleted

  function Changed(e: DeletionEvent, c: Change): DeletionEvent {
    match c
    case AckNoAuthId => e.(acknowledged := true, error := Some("skipped: no owner_auth_user_id recorded"))
    case NoteLookupFailed => e.(error := Some("reconcile lookup failed"))
    case AckInUse => e.(acknowledged := true, error := Some("skipped: auth identity still owns other businesses (login retained)"))
    case NoteDeleteFailed => e.(error := Some("admin.deleteUser"))
    case MarkDeleted => e.(authUserDeleted := true, acknowledged := true, error := None)
  }

  /** `update(...).eq("id", id)`; the result is not looked at, so it may have changed nothing. */
  function Update(events: seq<DeletionEvent>, id: string, c: Change): (r: seq<DeletionEvent>)
    ensures |r| == |events|
  {
    seq(|events|, k requires 0 <= k < |events| => if events[k].id == id then Changed(events[k], c) else events[k])
  }

  /** How the outside world answers the calls made for one event. */
  datatype Answers = Answers(
    ownersFail: bool,
    usersFail: bool,
    deleteFails: bool,       // an error other than "not found"
    deleteRemoves: bool,     // a failing deleteUser may have removed the login all the same
    updateLands: bool)

  predicate HasUid(e: DeletionEvent) { e.uid.Some? && e.uid.value != "" }

  function DeleteUser(logins: set<string>, uid: string, a: Answers): set<string> {
    if a.deleteFails && !a.deleteRemoves then logins else logins - {uid}
  }

  // ---------------------------------------------------------------- one event, alone

  /** What is decided about an unresolved event: the update to make and the outcome to report. */
  function Verdict(db: Db, e: DeletionEvent, a: Answers): (Change, Outcome) {
    if !HasUid(e) then (AckNoAuthId, SkippedNoAuthId)
    else if a.ownersFail then (NoteLookupFailed, Failed)
    else if OwnsBusiness(db, e.uid.value) then (AckInUse, SkippedInUse)
    else if a.usersFail then (NoteLookupFailed, Failed)
    else if IsUser(db, e.uid.value) then (AckInUse, SkippedInUse)
    else if a.deleteFails then (NoteDeleteFailed, Failed)
    else (MarkDeleted, Deleted)
  }

  predicate CallsDelete(db: Db, e: DeletionEvent, a: Answers) {
    HasUid(e) && !a.ownersFail && !a.usersFail && !Referenced(db, e.uid.value)
  }

  function Process(db: Db, e: DeletionEvent, a: Answers): (Db, Outcome) {
    if e.Resolved() then (db, SkippedInUse)
    else
      var (change, outcome) := Verdict(db, e, a);
      var logins := if CallsDelete(db, e, a) then DeleteUser(db.logins, e.uid.value, a) else db.logins;
      (db.(logins := logins, events := if a.updateLands then Update(db.events, e.id, change) else db.events), outcome)
  }

  /** Whether processing takes a pending event out of the pending set. */
  predicate Resolves(db: Db, e: DeletionEvent, a: Answers) {
    a.updateLands && Verdict(db, e, a).1 != Failed
  }

  // ---------------------------------------------------------------- a batch

  function Pending(events: seq<DeletionEvent>): seq<DeletionEvent> {
    if events == [] then []
    else (if events[0].Resolved() then [] else [events[0]]) + Pending(events[1..])
  }

  function Take<T>(s: seq<T>, n: nat): seq<T> { if |s| <= n then s else s[..n] }
  function Drop<T>(s: seq<T>, n: nat): seq<T> { if |s| <= n then [] else s[n..] }

  datatype EventResult = EventResult(id: string, outcome: Outcome)

  type AnswersTo = string -> Answers

  function ProcessAll(db: Db, todo: seq<DeletionEvent>, answers: AnswersTo): (Db, seq<EventResult>)
    decreases |todo|
  {
    if todo == [] then (db, [])
    else
      var (db1, outcome) := Process(db, todo[0], answers(todo[0].id));
      var (db2, results) := ProcessAll(db1, todo[1..], answers);
      (db2, [EventResult(todo[0].id, outcome)] + results)
  }

  class Reconciler {
    var events: seq<DeletionEvent>
    var logins: set<string>
    var businesses: map<string, string>
    var users: map<string, string>

    constructor (db: Db)
      ensures Contents() == db
    {
      events, logins, businesses, users := db.events, db.logins, db.businesses, db.users;
    }

    function Contents(): Db
      reads this
    {
      Db(events, logins, businesses, users)
    }

    method UpdateEvent(id: string, c: Change, lands: bool)
      modifies this`events
      ensures events == (if lands then Update(old(events), id, c) else old(events))
    {
      if lands { events := Update(events, id, c); }
    }

    /**
     `authIdentityStillInUse`; None where it throws. An answer is always the truth,
     and it throws only when a failed lookup leaves the truth open or hides it.
     */
    method StillInUse(uid: string, a: Answers) returns (inUse: Option<bool>)
      ensures inUse.Some? ==> inUse.value == Referenced(Contents(), uid)
      ensures inUse.None? <==> a.ownersFail || (a.usersFail && !OwnsBusiness(Contents(), uid))
    {
      if a.ownersFail { return None; }
      if exists b :: b in businesses && businesses[b] == uid { return Some(true); }
      if a.usersFail { return None; }
      return Some(exists u :: u in users && users[u] == uid);
    }

    method ProcessEvent(e: DeletionEvent, a: Answers) returns (outcome: Outcome)
      modifies this`events, this`logins
      ensures (Contents(), outcome) == Process(old(Contents()), e, a)
    {
      if e.authUserDeleted || e.acknowledged { return SkippedInUse; }
      if e.uid.None? || e.uid.value == "" {
        UpdateEvent(e.id, AckNoAuthId, a.updateLands);
        return SkippedNoAuthId;
      }
      var inUse := StillInUse(e.uid.value, a);
      if inUse.None? {
        UpdateEvent(e.id, NoteLookupFailed, a.updateLands);
        return Failed;
      }
      if inUse.value {
        UpdateEvent(e.id, AckInUse, a.updateLands);
        return SkippedInUse;
      }
      logins := DeleteUser(logins, e.uid.value, a);
      if a.deleteFails {
        UpdateEvent(e.id, NoteDeleteFailed, a.updateLands);
        return Failed;
      }
      UpdateEvent(e.id, MarkDeleted, a.updateLands);
      return Deleted;
    }

    /** One batch: the oldest pending events, in order, up to the limit. */
    method ReconcileBatch(answers: AnswersTo) returns (results: seq<EventResult>)
      modifies this`events, this`logins
      ensures (Contents(), results)
           == ProcessAll(old(Contents()), Take(Pending(old(events)), BATCH_LIMIT), answers)
    {
      var batch := Take(Pending(events), BATCH_LIMIT);
      ghost var start := Contents();
      results := [];
      assert batch[0..] == batch && results + ProcessAll(start, batch, answers).1 == ProcessAll(start, batch, answers).1;
      for i := 0 to |batch|
        invariant StillToCome(start, batch, answers, Contents(), i, results)
      {
        ghost var before := Contents();
        var outcome := ProcessEvent(batch[i], answers(batch[i].id));
        OneMore(start, batch, answers, before, i, results, Contents(), outcome);
        results := results + [EventResult(batch[i].id, outcome)];
      }
      assert batch[|batch|..] == [] && results + [] == results;
    }
  }

  /** Having processed `i` events with `results`, the rest of the batch completes the whole. */
  ghost predicate StillToCome(start: Db, batch: seq<DeletionEvent>, answers: AnswersTo,
                              now: Db, i: nat, results: seq<EventResult>)
    requires i <= |batch|
  {
    var (end, rest) := ProcessAll(now, batch[i..], answers);
    ProcessAll(start, batch, answers) == (end, results + rest)
  }

  lemma OneMore(start: Db, batch: seq<DeletionEvent>, answers: AnswersTo, before: Db, i: nat,
                results: seq<EventResult>, after: Db, outcome: Outcome)
    requires i < |batch| && StillToCome(start, batch, answers, before, i, results)
    requires (after, outcome) == Process(before, batch[i], answers(batch[i].id))
    ensures StillToCome(start, batch, answers, after, i + 1, results + [EventResult(batch[i].id, outcome)])
  {
    assert batch[i..][1..] == batch[i + 1..];
    var rest := ProcessAll(after, batch[i + 1..], answers).1;
    assert results + ([EventResult(batch[i].id, outcome)] + rest)
        == (results + [EventResult(batch[i].id, outcome)]) + rest;
  }

  // ---------------------------------------------------------------- what a batch leaves pending

  function Ids(events: seq<DeletionEvent>): (r: seq<string>)
    ensures |r| == |events|
  {
    seq(|events|, k requires 0 <= k < |events| => events[k].id)
  }

  /** The elements of `ids` that are in `stuck`, in order. */
  function Keep(ids: seq<string>, stuck: set<string>): seq<string> {
    if ids == [] then [] else (if ids[0] in stuck then [ids[0]] else []) + Keep(ids[1..], stuck)
  }

  /** The elements of `ids` that are not in `gone`, in order. */
  function Without(ids: seq<string>, gone: set<string>): seq<string> {
    if ids == [] then [] else (if ids[0] in gone then [] else [ids[0]]) + Without(ids[1..], gone)
  }

  /** `after` is `before` with the events named in `gone` resolved. */
  ghost predicate ResolvedMore(before: seq<DeletionEvent>, after: seq<DeletionEvent>, gone: set<string>) {
    && |after| == |before|
    && forall k :: 0 <= k < |before| ==>
         && after[k].id == before[k].id && after[k].uid == before[k].uid
         && (after[k].Resolved() <==> before[k].Resolved() || before[k].id in gone)
         && (before[k].authUserDeleted ==> after[k].authUserDeleted)
  }

  lemma {:induction false} PendingShrinks(before: seq<DeletionEvent>, after: seq<DeletionEvent>, gone: set<string>)
    requires ResolvedMore(before, after, gone)
    ensures Ids(Pending(after)) == Without(Ids(Pending(before)), gone)
    decreases |before|
  {
    if before != [] {
      assert ResolvedMore(before[1..], after[1..], gone);
      PendingShrinks(before[1..], after[1..], gone);
      var rest := Ids(Pending(before[1..]));
      if !before[0].Resolved() {
        assert Ids(Pending(before)) == [before[0].id] + rest;
      } else {
        assert Ids(Pending(before)) == rest;
      }
      if !after[0].Resolved() {
        assert Ids(Pending(after)) == [after[0].id] + Ids(Pending(after[1..]));
      } else {
        assert Ids(Pending(after)) == Ids(Pending(after[1..]));
      }
    }
  }

  /** The ids of the events of `todo` that processing takes out of the pending set. */
  function ResolvedIds(db: Db, todo: seq<DeletionEvent>, answers: AnswersTo): set<string> {
    if todo == [] then {}
    else (if Resolves(db, todo[0], answers(todo[0].id)) then {todo[0].id} else {}) + ResolvedIds(db, todo[1..], answers)
  }

  lemma ProcessResolvesOne(db: Db, e: DeletionEvent, a: Answers)
    requires !e.Resolved()
    ensures var db' := Process(db, e, a).0;
      && ResolvedMore(db.events, db'.events, if Resolves(db, e, a) then {e.id} else {})
      && db'.businesses == db.businesses && db'.users == db.users
  {
  }

  lemma {:induction false} SameReferences(db: Db, db': Db, todo: seq<DeletionEvent>, answers: AnswersTo)
    requires db'.businesses == db.businesses && db'.users == db.users
    ensures ResolvedIds(db', todo, answers) == ResolvedIds(db, todo, answers)
    decreases |todo|
  {
    if todo != [] {
      SameReferences(db, db', todo[1..], answers);
    }
  }

  lemma {:induction false} ProcessAllResolves(db: Db, todo: seq<DeletionEvent>, answers: AnswersTo)
    requires forall k :: 0 <= k < |todo| ==> !todo[k].Resolved()
    ensures var db' := ProcessAll(db, todo, answers).0;
      ResolvedMore(db.events, db'.events, ResolvedIds(db, todo, answers))
    decreases |todo|
  {
    if todo != [] {
      ProcessResolvesOne(db, todo[0], answers(todo[0].id));
      var db1 := Process(db, todo[0], answers(todo[0].id)).0;
      ProcessAllResolves(db1, todo[1..], answers);
      SameReferences(db, db1, todo[1..], answers);
    }
  }

  // ---------------------------------------------------------------- the shape of a batch run

  /** One batch run on the ids alone: the stuck ones among the oldest stay, the newer ones move up. */
  function NextPending(ids: seq<string>, stuck: set<string>): seq<string> {
    Keep(Take(ids, BATCH_LIMIT), stuck) + Drop(ids, BATCH_LIMIT)
  }

  ghost predicate Distinct(ids: seq<string>) {
    forall i, j :: 0 <= i < j < |ids| ==> ids[i] != ids[j]
  }

  lemma {:induction false} WithoutSplit(a: seq<string>, b: seq<string>, gone: set<string>)
    ensures Without(a + b, gone) == Without(a, gone) + Without(b, gone)
    decreases |a|
  {
    if a == [] {
      assert a + b == b;
    } else {
      assert (a + b)[1..] == a[1..] + b;
      WithoutSplit(a[1..], b, gone);
    }
  }

  lemma {:induction false} WithoutNone(ids: seq<string>, gone: set<string>)
    requires forall k :: 0 <= k < |ids| ==> ids[k] !in gone
    ensures Without(ids, gone) == ids
    decreases |ids|
  {
    if ids != [] {
      WithoutNone(ids[1..], gone);
    }
  }

  lemma {:induction false} WithoutIsKeep(ids: seq<string>, gone: set<string>, stuck: set<string>)
    requires forall k :: 0 <= k < |ids| ==> (ids[k] in gone <==> ids[k] !in stuck)
    ensures Without(ids, gone) == Keep(ids, stuck)
    decreases |ids|
  {
    if ids != [] {
      WithoutIsKeep(ids[1..], gone, stuck);
    }
  }

  lemma {:induction false} PendingMembers(events: seq<DeletionEvent>)
    ensures forall k :: 0 <= k < |Pending(events)| ==> !Pending(events)[k].Resolved() && Pending(events)[k] in events
    ensures UniqueIds(events) ==> UniqueIds(Pending(events))
    decreases |events|
  {
    if events != [] {
      PendingMembers(events[1..]);
      assert events == [events[0]] + events[1..];
      if UniqueIds(events) {
        assert UniqueIds(events[1..]);
        var rest := Pending(events[1..]);
        forall k | 0 <= k < |rest|
          ensures rest[k].id != events[0].id
        {
          var j :| 0 <= j < |events[1..]| && events[1..][j] == rest[k];
          assert events[j + 1] == rest[k];
        }
      }
    }
  }

  lemma {:induction false} ResolvedIdsMembers(db: Db, todo: seq<DeletionEvent>, answers: AnswersTo)
    ensures forall id :: id in ResolvedIds(db, todo, answers) <==>
              exists k :: 0 <= k < |todo| && todo[k].id == id && Resolves(db, todo[k], answers(id))
    decreases |todo|
  {
    if todo != [] {
      ResolvedIdsMembers(db, todo[1..], answers);
      forall id
        ensures id in ResolvedIds(db, todo, answers) <==>
                  exists k :: 0 <= k < |todo| && todo[k].id == id && Resolves(db, todo[k], answers(id))
      {
        if k :| 0 <= k < |todo[1..]| && todo[1..][k].id == id && Resolves(db, todo[1..][k], answers(id)) {
          assert todo[k + 1].id == id;
        }
        if k :| 0 <= k < |todo| && todo[k].id == id && Resolves(db, todo[k], answers(id)) {
          if k > 0 {
            assert todo[1..][k - 1].id == id;
          }
        }
      }
    }
  }

  /**
   A batch run leaves pending exactly the events of its batch that fail, in their
   order, followed by those it did not reach.
   */
  lemma BatchLeaves(db: Db, answers: AnswersTo, stuck: set<string>)
    requires UniqueIds(db.events)
    requires forall e :: e in db.events && !e.Resolved() ==> (e.id in stuck <==> !Resolves(db, e, answers(e.id)))
    ensures var db' := ProcessAll(db, Take(Pending(db.events), BATCH_LIMIT), answers).0;
      Ids(Pending(db'.events)) == NextPending(Ids(Pending(db.events)), stuck)
  {
    var pending := Pending(db.events);
    var batch, rest := Take(pending, BATCH_LIMIT), Drop(pending, BATCH_LIMIT);
    var gone := ResolvedIds(db, batch, answers);
    PendingMembers(db.events);
    ProcessAllResolves(db, batch, answers);
    var db' := ProcessAll(db, batch, answers).0;
    PendingShrinks(db.events, db'.events, gone);
    IdsSplit(pending);
    WithoutSplit(Ids(batch), Ids(rest), gone);
    ResolvedIdsMembers(db, batch, answers);
    BatchIsGone(db, answers, batch, rest, stuck);
    WithoutNone(Ids(rest), gone);
    WithoutIsKeep(Ids(batch), gone, stuck);
  }

  lemma IdsSplit(events: seq<DeletionEvent>)
    ensures var batch, rest := Take(events, BATCH_LIMIT), Drop(events, BATCH_LIMIT);
      && events == batch + rest
      && Ids(events) == Ids(batch) + Ids(rest)
      && Take(Ids(events), BATCH_LIMIT) == Ids(batch) && Drop(Ids(events), BATCH_LIMIT) == Ids(rest)
  {
  }

  lemma BatchIsGone(db: Db, answers: AnswersTo, batch: seq<DeletionEvent>, rest: seq<DeletionEvent>, stuck: set<string>)
    requires UniqueIds(batch + rest)
    requires forall k :: 0 <= k < |batch| ==> (batch[k].id in stuck <==> !Resolves(db, batch[k], answers(batch[k].id)))
    ensures forall k :: 0 <= k < |rest| ==> Ids(rest)[k] !in ResolvedIds(db, batch, answers)
    ensures forall k :: 0 <= k < |batch| ==>
              (Ids(batch)[k] in ResolvedIds(db, batch, answers) <==> Ids(batch)[k] !in stuck)
  {
    ResolvedIdsMembers(db, batch, answers);
    var all := batch + rest;
    forall k, j | 0 <= k < |rest| && 0 <= j < |batch|
      ensures rest[k].id != batch[j].id
    {
      assert all[j] == batch[j] && all[|batch| + k] == rest[k];
    }
    forall k, j | 0 <= k < |batch| && 0 <= j < |batch| && batch[k].id == batch[j].id
      ensures k == j
    {
      assert all[j] == batch[j] && all[k] == batch[k];
    }
  }
}
