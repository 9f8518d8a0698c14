/**
 Several reconcilers at once. Each database or Admin API call is one step; workers
 start from a snapshot of their event that may be long out of date by the time they
 act; updates may silently change nothing; workers may die; and meanwhile the shops
 go on creating and deleting businesses, users and logins.
 */
module ReconcileMachine {
  import opened Prelude
  import opened Reconcile

  datatype Pc =
    | LookupOwners
    | LookupUsers
    | CallDelete
    | WriteEvent(change: Change, outcome: Outcome)
    | Done(outcome: Outcome)
    | Dead

  datatype Worker = Worker(e: DeletionEvent, pc: Pc)

  /** From the snapshot to the first call. */
  function Begin(e: DeletionEvent): Worker {
    Worker(e, if e.Resolved() then Done(SkippedInUse)
              else if !HasUid(e) then WriteEvent(AckNoAuthId, SkippedNoAuthId)
              else LookupOwners)
  }

  /** One `deleteUser` call, and whether anything referred to the login when it was made. */
  datatype DeleteCall = DeleteCall(uid: string, referenced: bool)

  datatype World = World(db: Db, workers: seq<Worker>, calls: seq<DeleteCall>)

  function Step(db: Db, w: Worker, a: Answers): (Db, Worker) {
    match w.pc
    case LookupOwners =>
      (db, w.(pc := if a.ownersFail then WriteEvent(NoteLookupFailed, Failed)
                    else if OwnsBusiness(db, w.e.uid.GetOr("")) then WriteEvent(AckInUse, SkippedInUse)
                    else LookupUsers))
    case LookupUsers =>
      (db, w.(pc := if a.usersFail then WriteEvent(NoteLookupFailed, Failed)
                    else if IsUser(db, w.e.uid.GetOr("")) then WriteEvent(AckInUse, SkippedInUse)
                    else CallDelete))
    case CallDelete =>
      (db.(logins := DeleteUser(db.logins, w.e.uid.GetOr(""), a)),
       w.(pc := if a.deleteFails then WriteEvent(NoteDeleteFailed, Failed) else WriteEvent(MarkDeleted, Deleted)))
    case WriteEvent(change, outcome) =>
      (if a.updateLands then db.(events := Update(db.events, w.e.id, change)) else db, w.(pc := Done(outcome)))
    case Done(_) => (db, w)
    case Dead => (db, w)
  }

  /**
   What can happen. Login ids are never given out again, so a new login is one no
   event names; a new event is unresolved and has a fresh id.
   */
  datatype Action =
    | Pick(k: nat)                              // a worker takes the event at position k
    | Run(i: nat, a: Answers)
    | Kill(i: nat)
    | AddBusiness(b: string, owner: string)
    | RemoveBusiness(b: string)
    | AddUser(u: string, uid: string)
    | RemoveUser(u: string)
    | SignUp(uid: string)
    | Record(id: string, login: Option<string>)

  function Act(w: World, x: Action): World {
    match x
    case Pick(k) => if k < |w.db.events| then w.(workers := w.workers + [Begin(w.db.events[k])]) else w
    case Run(i, a) =>
      if i < |w.workers| then
        var (db, worker) := Step(w.db, w.workers[i], a);
        var uid := w.workers[i].e.uid.GetOr("");
        World(db, w.workers[i := worker],
              if w.workers[i].pc.CallDelete? then w.calls + [DeleteCall(uid, Referenced(w.db, uid))] else w.calls)
      else w
    case Kill(i) => if i < |w.workers| then w.(workers := w.workers[i := w.workers[i].(pc := Dead)]) else w
    case AddBusiness(b, owner) => w.(db := w.db.(businesses := w.db.businesses[b := owner]))
    case RemoveBusiness(b) => w.(db := w.db.(businesses := w.db.businesses - {b}))
    case AddUser(u, uid) => w.(db := w.db.(users := w.db.users[u := uid]))
    case RemoveUser(u) => w.(db := w.db.(users := w.db.users - {u}))
    case SignUp(uid) =>
      if exists k :: 0 <= k < |w.db.events| && w.db.events[k].uid == Some(uid) then w
      else w.(db := w.db.(logins := w.db.logins + {uid}))
    case Record(id, uid) =>
      if exists k :: 0 <= k < |w.db.events| && w.db.events[k].id == id then w
      else w.(db := w.db.(events := w.db.events + [DeletionEvent(id, uid, false, false, None)]))
  }

  function Exec(w: World, schedule: seq<Action>): World
    decreases |schedule|
  {
    if schedule == [] then w else Exec(Act(w, schedule[0]), schedule[1..])
  }

  // ---------------------------------------------------------------- one worker alone is processEvent

  function Steps(db: Db, w: Worker, a: Answers, n: nat): (Db, Worker)
    decreases n
  {
    if n == 0 then (db, w) else var (db', w') := Step(db, w, a); Steps(db', w', a, n - 1)
  }

  lemma AloneIsProcess(db: Db, e: DeletionEvent, a: Answers)
    ensures var (db', w') := Steps(db, Begin(e), a, 4);
      var (db1, outcome) := Process(db, e, a);
      db' == db1 && w'.pc == Done(outcome)
  {
  }

  // ---------------------------------------------------------------- what the flag means

  /** A marked event names a login that is gone. */
  ghost predicate FlagsTrue(db: Db) {
    forall k :: 0 <= k < |db.events| && db.events[k].authUserDeleted ==>
      HasUid(db.events[k]) && db.events[k].uid.value !in db.logins
  }

  /** The worker's event is in the table, with the login id the worker knows; one about to be marked is gone. */
  ghost predicate WorkerOk(db: Db, w: Worker) {
    && (exists k :: 0 <= k < |db.events| && db.events[k].id == w.e.id && db.events[k].uid == w.e.uid)
    && (w.pc.LookupOwners? || w.pc.LookupUsers? || w.pc.CallDelete? ==> HasUid(w.e))
    && (w.pc.WriteEvent? && w.pc.change.MarkDeleted? ==> HasUid(w.e) && w.e.uid.value !in db.logins)
  }

  ghost predicate Inv(w: World) {
    && UniqueIds(w.db.events)
    && FlagsTrue(w.db)
    && forall i :: 0 <= i < |w.workers| ==> WorkerOk(w.db, w.workers[i])
  }

  /** Events stay in place, and neither of the two resolutions is ever taken back. */
  ghost predicate EventsGrow(a: seq<DeletionEvent>, b: seq<DeletionEvent>) {
    && |a| <= |b|
    && forall k :: 0 <= k < |a| ==>
         && b[k].id == a[k].id && b[k].uid == a[k].uid
         && (a[k].authUserDeleted ==> b[k].authUserDeleted)
         && (a[k].acknowledged ==> b[k].acknowledged)
  }

  lemma UpdateKeeps(db: Db, w: Worker, change: Change)
    requires UniqueIds(db.events) && FlagsTrue(db) && WorkerOk(db, w)
    requires change.MarkDeleted? ==> HasUid(w.e) && w.e.uid.value !in db.logins
    ensures var db' := db.(events := Update(db.events, w.e.id, change));
      UniqueIds(db'.events) && FlagsTrue(db') && EventsGrow(db.events, db'.events)
  {
    var k :| 0 <= k < |db.events| && db.events[k].id == w.e.id && db.events[k].uid == w.e.uid;
    var events' := Update(db.events, w.e.id, change);
    forall j | 0 <= j < |events'|
      ensures events'[j].id == db.events[j].id && events'[j].uid == db.events[j].uid
      ensures j != k ==> events'[j] == db.events[j]
    {
    }
  }

  lemma StepKeeps(db: Db, w: Worker, a: Answers)
    requires UniqueIds(db.events) && FlagsTrue(db) && WorkerOk(db, w)
    ensures var (db', w') := Step(db, w, a);
      && UniqueIds(db'.events) && FlagsTrue(db') && EventsGrow(db.events, db'.events)
      && db'.logins <= db.logins && WorkerOk(db', w')
  {
    if w.pc.WriteEvent? {
      UpdateKeeps(db, w, w.pc.change);
      WorkerStaysOk(db, Step(db, w, a).0, w);
    }
  }

  lemma WorkerStaysOk(db: Db, db': Db, w: Worker)
    requires WorkerOk(db, w) && EventsGrow(db.events, db'.events)
    requires forall uid :: uid in db'.logins && uid !in db.logins ==>
               forall k :: 0 <= k < |db.events| ==> db.events[k].uid != Some(uid)
    ensures WorkerOk(db', w)
  {
  }

  lemma ActKeeps(w: World, x: Action)
    requires Inv(w)
    ensures Inv(Act(w, x)) && EventsGrow(w.db.events, Act(w, x).db.events)
  {
    var w' := Act(w, x);
    if x.Run? && x.i < |w.workers| {
      StepKeeps(w.db, w.workers[x.i], x.a);
    }
    if x.Record? {
      RecordKeeps(w, x.id, x.login);
    }
    forall i | 0 <= i < |w.workers| && !(x.Run? && x.i == i)
      ensures WorkerOk(w'.db, w.workers[i])
    {
      WorkerStaysOk(w.db, w'.db, w.workers[i]);
    }
    if x.Pick? && x.k < |w.db.events| {
      assert WorkerOk(w'.db, Begin(w.db.events[x.k]));
    }
  }

  lemma RecordKeeps(w: World, id: string, uid: Option<string>)
    requires Inv(w)
    ensures var db' := Act(w, Record(id, uid)).db;
      UniqueIds(db'.events) && FlagsTrue(db') && EventsGrow(w.db.events, db'.events) && db'.logins == w.db.logins
  {
  }

  /**
   With any number of workers, stale snapshots, lost updates, deaths and whatever
   the shops do: `auth_user_deleted` means the login is gone, and neither it nor
   the acknowledgement is ever unset.
   */
  lemma {:induction false} DeletedMeansGone(w: World, schedule: seq<Action>)
    requires Inv(w)
    ensures Inv(Exec(w, schedule)) && EventsGrow(w.db.events, Exec(w, schedule).db.events)
    decreases |schedule|
  {
    if schedule != [] {
      ActKeeps(w, schedule[0]);
      DeletedMeansGone(Act(w, schedule[0]), schedule[1..]);
    }
  }

  // ---------------------------------------------------------------- the guard

  /** The worker has begun to check this login and not yet decided. */
  predicate InFlight(w: Worker, uid: string) {
    (w.pc.LookupUsers? || w.pc.CallDelete?) && w.e.uid.GetOr("") == uid
  }

  predicate NobodyChecks(w: World, uid: string) {
    forall i :: 0 <= i < |w.workers| ==> !InFlight(w.workers[i], uid)
  }

  /** While a login is being checked, references to it are removed but not added. */
  predicate Calm(w: World, x: Action) {
    match x
    case AddBusiness(_, owner) => NobodyChecks(w, owner)
    case AddUser(_, uid) => NobodyChecks(w, uid)
    case _ => true
  }

  predicate CalmRun(w: World, schedule: seq<Action>)
    decreases |schedule|
  {
    schedule != [] ==> Calm(w, schedule[0]) && CalmRun(Act(w, schedule[0]), schedule[1..])
  }

  predicate Checked(db: Db, w: Worker) {
    && (w.pc.LookupUsers? ==> !OwnsBusiness(db, w.e.uid.GetOr("")))
    && (w.pc.CallDelete? ==> !Referenced(db, w.e.uid.GetOr("")))
  }

  ghost predicate GuardInv(w: World) {
    && (forall i :: 0 <= i < |w.workers| ==> Checked(w.db, w.workers[i]))
    && (forall k :: 0 <= k < |w.calls| ==> !w.calls[k].referenced)
  }

  lemma ActKeepsGuard(w: World, x: Action)
    requires GuardInv(w) && Calm(w, x)
    ensures GuardInv(Act(w, x))
  {
  }

  /** The safety guard: no login is deleted while a business or a user row refers to it. */
  lemma {:induction false} NoReferencedDelete(w: World, schedule: seq<Action>)
    requires GuardInv(w) && CalmRun(w, schedule)
    ensures GuardInv(Exec(w, schedule))
    decreases |schedule|
  {
    if schedule != [] {
      ActKeepsGuard(w, schedule[0]);
      NoReferencedDelete(Act(w, schedule[0]), schedule[1..]);
    }
  }

  // ---------------------------------------------------------------- the guard's limit

  predicate BusinessUntouched(m: seq<Action>, b: string) {
    forall x :: x in m ==> !(x.AddBusiness? && x.b == b) && !(x.RemoveBusiness? && x.b == b)
  }

  predicate UserUntouched(m: seq<Action>, u: string) {
    forall x :: x in m ==> !(x.AddUser? && x.u == u) && !(x.RemoveUser? && x.u == u)
  }

  /** Some business of `uid` is added and then left alone. */
  predicate LeavesOwner(m: seq<Action>, uid: string) {
    m != [] &&
    ((m[0].AddBusiness? && m[0].owner == uid && BusinessUntouched(m[1..], m[0].b)) || LeavesOwner(m[1..], uid))
  }

  predicate LeavesUser(m: seq<Action>, uid: string) {
    m != [] &&
    ((m[0].AddUser? && m[0].uid == uid && UserUntouched(m[1..], m[0].u)) || LeavesUser(m[1..], uid))
  }

  /** Whatever happens, a login owns a business afterwards if one was added and left alone, or was there and left alone. */
  lemma {:induction false} OwnsAfter(w: World, m: seq<Action>, uid: string)
    ensures OwnsBusiness(Exec(w, m).db, uid) <==>
              LeavesOwner(m, uid)
              || exists b :: b in w.db.businesses && w.db.businesses[b] == uid && BusinessUntouched(m, b)
    decreases |m|
  {
    if m == [] {
      assert forall b :: BusinessUntouched(m, b);
    } else {
      var w1, rest := Act(w, m[0]), m[1..];
      OwnsAfter(w1, rest, uid);
      forall b
        ensures BusinessUntouched(m, b) <==> BusinessUntouched([m[0]], b) && BusinessUntouched(rest, b)
      {
        assert m == [m[0]] + rest;
      }
      forall b
        ensures b in w1.db.businesses && w1.db.businesses[b] == uid <==>
                  (m[0].AddBusiness? && m[0].b == b && m[0].owner == uid)
                  || (b in w.db.businesses && w.db.businesses[b] == uid && BusinessUntouched([m[0]], b))
      {
        assert m[0] in [m[0]];
      }
    }
  }

  lemma {:induction false} IsUserAfter(w: World, m: seq<Action>, uid: string)
    ensures IsUser(Exec(w, m).db, uid) <==>
              LeavesUser(m, uid)
              || exists u :: u in w.db.users && w.db.users[u] == uid && UserUntouched(m, u)
    decreases |m|
  {
    if m == [] {
      assert forall u :: UserUntouched(m, u);
    } else {
      var w1, rest := Act(w, m[0]), m[1..];
      IsUserAfter(w1, rest, uid);
      forall u
        ensures UserUntouched(m, u) <==> UserUntouched([m[0]], u) && UserUntouched(rest, u)
      {
        assert m == [m[0]] + rest;
      }
      forall u
        ensures u in w1.db.users && w1.db.users[u] == uid <==>
                  (m[0].AddUser? && m[0].u == u && m[0].uid == uid)
                  || (u in w.db.users && w.db.users[u] == uid && UserUntouched([m[0]], u))
      {
        assert m[0] in [m[0]];
      }
    }
  }

  /** Everything but the calls and the death of worker `i`: the shops, new events, the other workers. */
  predicate Others(m: seq<Action>, i: nat) {
    forall x :: x in m ==> !(x.Run? && x.i == i) && !(x.Kill? && x.i == i)
  }

  lemma {:induction false} OthersLeaveWorker(w: World, m: seq<Action>, i: nat)
    requires i < |w.workers| && Others(m, i)
    ensures i < |Exec(w, m).workers| && Exec(w, m).workers[i] == w.workers[i]
    decreases |m|
  {
    if m != [] {
      assert m[0] in m;
      OthersLeaveWorker(Act(w, m[0]), m[1..], i);
    }
  }

  /** The world in front of the third call of worker `i`; `m0`, `m1`, `m2` happen before its calls. */
  function BeforeDelete(
    w: World, i: nat, m0: seq<Action>, a1: Answers, m1: seq<Action>, a2: Answers, m2: seq<Action>): World
  {
    Exec(Act(Exec(Act(Exec(w, m0), Run(i, a1)), m1), Run(i, a2)), m2)
  }

  /**
   What a worker's check is worth. Whatever the shops and the other workers do
   before and between its three calls, and however the calls are answered: it calls
   deleteUser unless a lookup failed or found a reference, and the login is
   referenced at that moment if and only if a business that names it was added
   after the first lookup, or a user after the second, and left alone since.
   */
  lemma DeleteCallOutcome(
    w: World, i: nat, m0: seq<Action>, a1: Answers, m1: seq<Action>, a2: Answers, m2: seq<Action>, a3: Answers)
    requires i < |w.workers| && w.workers[i].pc.LookupOwners?
    requires Others(m0, i) && Others(m1, i) && Others(m2, i)
    ensures var uid := w.workers[i].e.uid.GetOr("");
      var w0, w3 := Exec(w, m0), BeforeDelete(w, i, m0, a1, m1, a2, m2);
      var w1 := Exec(Act(w0, Run(i, a1)), m1);
      Act(w3, Run(i, a3)).calls == w3.calls
        + if a1.ownersFail || OwnsBusiness(w0.db, uid) || a2.usersFail || IsUser(w1.db, uid) then []
          else [DeleteCall(uid, LeavesOwner(m1 + m2, uid) || LeavesUser(m2, uid))]
  {
    var uid := w.workers[i].e.uid.GetOr("");
    var w0 := Exec(w, m0);
    OthersLeaveWorker(w, m0, i);
    var w0' := Act(w0, Run(i, a1));
    var w1 := Exec(w0', m1);
    OthersLeaveWorker(w0', m1, i);
    var w1' := Act(w1, Run(i, a2));
    var w3 := Exec(w1', m2);
    OthersLeaveWorker(w1', m2, i);
    if w3.workers[i].pc.CallDelete? {
      StillUnowned(w0', m1, Run(i, a2), m2, uid);
      IsUserAfter(w1', m2, uid);
    }
  }

  /** A login that owns nothing owns something later exactly if a business was added and left alone. */
  lemma StillUnowned(w: World, m1: seq<Action>, x: Action, m2: seq<Action>, uid: string)
    requires !OwnsBusiness(w.db, uid) && x.Run?
    ensures OwnsBusiness(Exec(Act(Exec(w, m1), x), m2).db, uid) <==> LeavesOwner(m1 + m2, uid)
  {
    ExecConcat(w, m1, [x] + m2);
    Unfold(Exec(w, m1), x, m2);
    OwnsAfter(w, m1 + ([x] + m2), uid);
    RunLeavesNothing(m1, x, m2, uid);
  }

  lemma {:induction false} RunLeavesNothing(m1: seq<Action>, x: Action, m2: seq<Action>, uid: string)
    requires x.Run?
    ensures LeavesOwner(m1 + ([x] + m2), uid) <==> LeavesOwner(m1 + m2, uid)
    decreases |m1|
  {
    if m1 == [] {
      assert m1 + ([x] + m2) == [x] + m2 && m1 + m2 == m2;
      assert ([x] + m2)[1..] == m2;
    } else {
      RunLeavesNothing(m1[1..], x, m2, uid);
      assert (m1 + ([x] + m2))[1..] == m1[1..] + ([x] + m2);
      assert (m1 + m2)[1..] == m1[1..] + m2;
      if m1[0].AddBusiness? {
        var b := m1[0].b;
        assert BusinessUntouched(m1[1..] + ([x] + m2), b) <==> BusinessUntouched(m1[1..] + m2, b);
      }
    }
  }

  /**
   The exact condition, for a login nothing refers to when the check begins. It is
   deleted while referenced if and only if every lookup comes too early: no
   business is added and kept before the first, no user before the second, and
   then one is, before the delete.
   */
  lemma DeletedWhileReferencedExactlyWhen(
    w: World, i: nat, m0: seq<Action>, a1: Answers, m1: seq<Action>, a2: Answers, m2: seq<Action>, a3: Answers)
    requires i < |w.workers| && w.workers[i].pc.LookupOwners?
    requires Others(m0, i) && Others(m1, i) && Others(m2, i)
    requires !Referenced(w.db, w.workers[i].e.uid.GetOr(""))
    ensures var uid := w.workers[i].e.uid.GetOr("");
      var w3 := BeforeDelete(w, i, m0, a1, m1, a2, m2);
      Act(w3, Run(i, a3)).calls == w3.calls
        + if a1.ownersFail || LeavesOwner(m0, uid) || a2.usersFail || LeavesUser(m0 + m1, uid) then []
          else [DeleteCall(uid, LeavesOwner(m1 + m2, uid) || LeavesUser(m2, uid))]
  {
    var uid := w.workers[i].e.uid.GetOr("");
    DeleteCallOutcome(w, i, m0, a1, m1, a2, m2, a3);
    OwnsAfter(w, m0, uid);
    StillNoUser(w, m0, Run(i, a1), m1, uid);
  }

  lemma StillNoUser(w: World, m0: seq<Action>, x: Action, m1: seq<Action>, uid: string)
    requires !IsUser(w.db, uid) && x.Run?
    ensures IsUser(Exec(Act(Exec(w, m0), x), m1).db, uid) <==> LeavesUser(m0 + m1, uid)
  {
    ExecConcat(w, m0, [x] + m1);
    Unfold(Exec(w, m0), x, m1);
    IsUserAfter(w, m0 + ([x] + m1), uid);
    RunLeavesNoUser(m0, x, m1, uid);
  }

  lemma {:induction false} RunLeavesNoUser(m0: seq<Action>, x: Action, m1: seq<Action>, uid: string)
    requires x.Run?
    ensures LeavesUser(m0 + ([x] + m1), uid) <==> LeavesUser(m0 + m1, uid)
    decreases |m0|
  {
    if m0 == [] {
      assert m0 + ([x] + m1) == [x] + m1 && m0 + m1 == m1;
      assert ([x] + m1)[1..] == m1;
    } else {
      RunLeavesNoUser(m0[1..], x, m1, uid);
      assert (m0 + ([x] + m1))[1..] == m0[1..] + ([x] + m1);
      assert (m0 + m1)[1..] == m0[1..] + m1;
      if m0[0].AddUser? {
        var u := m0[0].u;
        assert UserUntouched(m0[1..] + ([x] + m1), u) <==> UserUntouched(m0[1..] + m1, u);
      }
    }
  }

  lemma {:induction false} ExecConcat(w: World, a: seq<Action>, b: seq<Action>)
    ensures Exec(w, a + b) == Exec(Exec(w, a), b)
    decreases |a|
  {
    if a == [] {
      assert a + b == b;
    } else {
      assert (a + b)[1..] == a[1..] + b;
      ExecConcat(Act(w, a[0]), a[1..], b);
    }
  }

  lemma Unfold(w: World, a: Action, rest: seq<Action>)
    ensures Exec(w, [a] + rest) == Exec(Act(w, a), rest)
  {
  }
}
