/**
 "A token already bound to another business can never be re-claimed" (index.ts).
 Exactly the account tag guarantees it. Without one, a lookup that fails is taken
 for a missing row, and two first calls that overlap both find no row.
 */
module PlayRebind {
  import opened Prelude
  import opened PlayDecision
  import opened PlayMachine

  predicate BoundTo(db: Db, t: string, business: string) {
    t in db.rows && db.rows[t].business == business
  }

  /** One request whose first read fails. */
  function LostLookup(e: Event): seq<Action> {
    [Deliver(e)] + ([Run(0, true)] + Runs(0, 6))
  }

  /** `AppVerify` calls by an owner that name a business, a token and a live purchase. */
  predicate GoodCall(e: Event) {
    e.AppVerify? && e.owner && e.business != "" && e.token != "" && e.report.Some?
  }

  /** From the answer of the lookup on, an app call for an untagged token binds it, whoever has it. */
  lemma CallBinds(google: Google, db: Db, e: Event)
    requires GoodCall(e)
    ensures var db' := Steps(google, db, Receive(e).(business := e.business, pc := CallGoogle), 6).0;
      if Truthy(google.tag(e.token)) && google.tag(e.token) != Some(e.business) then db' == db
      else BoundTo(db', e.token, e.business)
  {
  }

  lemma LostLookupRebinds(google: Google, db: Db, e: Event)
    requires GoodCall(e) && !Truthy(google.tag(e.token))
    ensures BoundTo(Exec(google, World(db, []), LostLookup(e)).db, e.token, e.business)
  {
    var h0 := Receive(e);
    var h1 := h0.(business := e.business, pc := CallGoogle);
    var rest := [Run(0, true)] + Runs(0, 6);
    assert LostLookup(e)[0] == Deliver(e) && LostLookup(e)[1..] == rest;
    assert Act(google, World(db, []), Deliver(e)) == World(db, [h0]);
    assert rest[0] == Run(0, true) && rest[1..] == Runs(0, 6);
    assert Act(google, World(db, [h0]), Run(0, true)) == World(db, [h1]) by {
      assert [h0][0 := h1] == [h1];
    }
    RunsAreSteps(google, World(db, [h1]), 0, 6, []);
    assert Runs(0, 6) + [] == Runs(0, 6);
    CallBinds(google, db, e);
  }

  /** In every interleaving with failing reads a bound token keeps its business if and only if it is tagged. */
  lemma ReclaimedExactlyWhenUntagged(google: Google, db: Db, t: string)
    requires DbOk(google, db) && t in db.rows && t != ""
    ensures (forall schedule :: BoundTo(Exec(google, World(db, []), schedule).db, t, db.rows[t].business))
            <==> Truthy(google.tag(t))
  {
    var b := db.rows[t].business;
    if Truthy(google.tag(t)) {
      forall schedule
        ensures BoundTo(Exec(google, World(db, []), schedule).db, t, b)
      {
        InterleavedRunsKeep(google, World(db, []), schedule);
      }
    } else {
      var e := AppVerify(b + "x", t, true, Some(Report("", "", Active, None)), 0);
      LostLookupRebinds(google, db, e);
      assert |e.business| == |b| + 1;
      assert !BoundTo(Exec(google, World(db, []), LostLookup(e)).db, t, b);
    }
  }

  // ---------------------------------------------------------------- when nothing fails

  predicate Reliable(schedule: seq<Action>) {
    forall a :: a in schedule ==> !(a.Run? && a.lost)
  }

  /** The request looked the token up and acts, or will be let through to act, for another business. */
  predicate Moves(google: Google, h: Handler, t: string, business: string) {
    h.e.token == t && h.business != business &&
    match h.pc
    case CallGoogle =>
      && Fetch(google, t, h.e.report).Some?
      && (if h.e.AppVerify? then Truthy(google.tag(t)) ==> google.tag(t) == Some(h.business) else h.business != "")
    case ReadPrior => true
    case Write => true
    case _ => false
  }

  /** A notification that found no row: it may act for the business of the linked token, whichever that is by then. */
  predicate SeeksBusiness(h: Handler, t: string) {
    h.e.token == t && (h.pc.LookupLinked? || (h.pc.CallGoogle? && h.e.Rtdn? && h.business == ""))
  }

  ghost predicate NoneMoves(google: Google, w: World, t: string, business: string) {
    forall i :: 0 <= i < |w.handlers| ==>
      !Moves(google, w.handlers[i], t, business) && !SeeksBusiness(w.handlers[i], t)
  }

  lemma ReliableStepKeepsBusiness(google: Google, db: Db, h: Handler, t: string, business: string)
    requires BoundTo(db, t, business) && business != ""
    requires !Moves(google, h, t, business) && !SeeksBusiness(h, t)
    ensures var (db', h') := Step(google, db, h, false);
      BoundTo(db', t, business) && !Moves(google, h', t, business) && !SeeksBusiness(h', t)
  {
  }

  /** With no failing read and no such request in flight, a token keeps its business in every interleaving, tagged or not. */
  lemma {:induction false} ReliableRunsKeepBusiness(
    google: Google, w: World, schedule: seq<Action>, t: string, business: string)
    requires BoundTo(w.db, t, business) && business != "" && NoneMoves(google, w, t, business) && Reliable(schedule)
    ensures BoundTo(Exec(google, w, schedule).db, t, business)
    decreases |schedule|
  {
    if schedule != [] {
      var a := schedule[0];
      assert a in schedule;
      if a.Run? && a.i < |w.handlers| {
        ReliableStepKeepsBusiness(google, w.db, w.handlers[a.i], t, business);
      }
      ReliableRunsKeepBusiness(google, Act(google, w, a), schedule[1..], t, business);
    }
  }

  /** Such a request on its own goes on to bind the token to the other business. */
  lemma {:induction false} MovesBinding(google: Google, db: Db, h: Handler, t: string, business: string) returns (n: nat)
    requires Moves(google, h, t, business)
    ensures BoundTo(Steps(google, db, h, n).0, t, h.business)
    decreases if h.pc.CallGoogle? then 2 else if h.pc.ReadPrior? then 1 else 0
  {
    var (db1, h1) := Step(google, db, h, false);
    if h.pc.Write? {
      n := 1;
      assert Steps(google, db1, h1, 0) == (db1, h1);
    } else {
      n := MovesBinding(google, db1, h1, t, business);
      n := n + 1;
    }
  }

  /**
   The exact condition. With no failing read, and no notification in flight that
   found the token unknown, a bound token keeps its business in every interleaving if
   and only if no request in flight looked it up before it was bound and would be let
   through for another business.
   */
  lemma KeepsBusinessExactlyWhen(google: Google, w: World, t: string, business: string)
    requires BoundTo(w.db, t, business) && business != ""
    requires forall i :: 0 <= i < |w.handlers| ==> !SeeksBusiness(w.handlers[i], t)
    ensures (forall schedule :: Reliable(schedule) ==> BoundTo(Exec(google, w, schedule).db, t, business))
            <==> forall i :: 0 <= i < |w.handlers| ==> !Moves(google, w.handlers[i], t, business)
  {
    if i :| 0 <= i < |w.handlers| && Moves(google, w.handlers[i], t, business) {
      var n := MovesBinding(google, w.db, w.handlers[i], t, business);
      RunsAreSteps(google, w, i, n, []);
      RunsAreReliable(i, n);
      assert Runs(i, n) + [] == Runs(i, n);
      assert !BoundTo(Exec(google, w, Runs(i, n)).db, t, business);
    } else {
      forall schedule | Reliable(schedule)
        ensures BoundTo(Exec(google, w, schedule).db, t, business)
      {
        ReliableRunsKeepBusiness(google, w, schedule, t, business);
      }
    }
  }

  /** Both calls look the token up; then the first binds it; then the second does. */
  function FirstCallsOverlap(e1: Event, e2: Event): seq<Action> {
    [Deliver(e1), Deliver(e2)] + (Runs(0, 1) + (Runs(1, 1) + (Runs(0, 6) + Runs(1, 6))))
  }

  /** One, then the other of two requests that both found no row runs to its end. */
  lemma BothBind(google: Google, db: Db, e1: Event, e2: Event)
    requires GoodCall(e1) && GoodCall(e2) && e1.token == e2.token && !Truthy(google.tag(e1.token))
    ensures var w := World(db, [Receive(e1).(business := e1.business, pc := CallGoogle),
                                Receive(e2).(business := e2.business, pc := CallGoogle)]);
      && BoundTo(Exec(google, w, Runs(0, 6)).db, e1.token, e1.business)
      && BoundTo(Exec(google, w, Runs(0, 6) + Runs(1, 6)).db, e1.token, e2.business)
  {
    var h1 := Receive(e1).(business := e1.business, pc := CallGoogle);
    var h2 := Receive(e2).(business := e2.business, pc := CallGoogle);
    var (db1, h1') := Steps(google, db, h1, 6);
    CallBinds(google, db, e1);
    CallBinds(google, db1, e2);
    RunsAreSteps(google, World(db, [h1, h2]), 0, 6, []);
    assert Runs(0, 6) + [] == Runs(0, 6);
    RunsAreSteps(google, World(db, [h1, h2]), 0, 6, Runs(1, 6));
    assert [h1, h2][0 := h1'] == [h1', h2];
    RunsAreSteps(google, World(db1, [h1', h2]), 1, 6, []);
    assert Runs(1, 6) + [] == Runs(1, 6);
  }

  /**
   The request that looked too early: two overlapping first calls for an untagged
   token, with nothing failing, bind it to one business and then to the other.
   */
  lemma OverlappingCallsRebind(google: Google, db: Db, e1: Event, e2: Event)
    requires GoodCall(e1) && GoodCall(e2) && e1.token == e2.token && e1.token !in db.rows
    requires !Truthy(google.tag(e1.token))
    ensures var both := [Deliver(e1), Deliver(e2)] + (Runs(0, 1) + (Runs(1, 1) + Runs(0, 6)));
      && Reliable(FirstCallsOverlap(e1, e2))
      && BoundTo(Exec(google, World(db, []), both).db, e1.token, e1.business)
      && BoundTo(Exec(google, World(db, []), FirstCallsOverlap(e1, e2)).db, e1.token, e2.business)
  {
    RunsAreReliable(0, 1);
    RunsAreReliable(1, 1);
    RunsAreReliable(0, 6);
    RunsAreReliable(1, 6);
    BothLookedUp(google, db, e1, e2, Runs(0, 6));
    BothLookedUp(google, db, e1, e2, Runs(0, 6) + Runs(1, 6));
    BothBind(google, db, e1, e2);
  }

  lemma {:induction false} RunsAreReliable(i: nat, n: nat)
    ensures Reliable(Runs(i, n))
  {
    if n > 0 {
      RunsAreReliable(i, n - 1);
    }
  }

  lemma BothLookedUp(google: Google, db: Db, e1: Event, e2: Event, tail: seq<Action>)
    requires GoodCall(e1) && GoodCall(e2) && e1.token == e2.token && e1.token !in db.rows
    ensures Exec(google, World(db, []), [Deliver(e1), Deliver(e2)] + (Runs(0, 1) + (Runs(1, 1) + tail)))
         == Exec(google, World(db, [Receive(e1).(business := e1.business, pc := CallGoogle),
                                    Receive(e2).(business := e2.business, pc := CallGoogle)]), tail)
  {
    var r1, r2 := Receive(e1), Receive(e2);
    var h1, h2 := r1.(business := e1.business, pc := CallGoogle), r2.(business := e2.business, pc := CallGoogle);
    BothDelivered(google, db, e1, e2, Runs(0, 1) + (Runs(1, 1) + tail));
    assert Steps(google, db, r1, 1) == (db, h1) by {
      assert Step(google, db, r1, false) == (db, h1);
    }
    assert Steps(google, db, r2, 1) == (db, h2) by {
      assert Step(google, db, r2, false) == (db, h2);
    }
    RunsAreSteps(google, World(db, [r1, r2]), 0, 1, Runs(1, 1) + tail);
    assert [r1, r2][0 := h1] == [h1, r2];
    RunsAreSteps(google, World(db, [h1, r2]), 1, 1, tail);
    assert [h1, r2][1 := h2] == [h1, h2];
  }
}
