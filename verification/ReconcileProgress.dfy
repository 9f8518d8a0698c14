/**
 Which deletion events the batches get to. A batch takes the oldest 50 pending
 events; one that fails stays where it is, so enough failing events in front of
 another one keep it from ever being taken.
 */
module ReconcileProgress {
  import opened Reconcile

  /** Batch runs in a row; after run k the newer events `arrivals[k]` have come in. */
  function After(ids: seq<string>, stuck: set<string>, arrivals: seq<seq<string>>): seq<string>
    decreases |arrivals|
  {
    if arrivals == [] then ids
    else After(NextPending(ids, stuck) + arrivals[0], stuck, arrivals[1..])
  }

  function CountStuck(ids: seq<string>, stuck: set<string>): (n: nat)
    ensures n <= |ids|
  {
    if ids == [] then 0 else (if ids[0] in stuck then 1 else 0) + CountStuck(ids[1..], stuck)
  }

  lemma {:induction false} CountConcat(a: seq<string>, b: seq<string>, stuck: set<string>)
    ensures CountStuck(a + b, stuck) == CountStuck(a, stuck) + CountStuck(b, stuck)
    decreases |a|
  {
    if a == [] {
      assert a + b == b;
    } else {
      assert (a + b)[1..] == a[1..] + b;
      CountConcat(a[1..], b, stuck);
    }
  }

  lemma {:induction false} KeepCounts(ids: seq<string>, stuck: set<string>)
    ensures |Keep(ids, stuck)| == CountStuck(ids, stuck) == CountStuck(Keep(ids, stuck), stuck)
    ensures forall x :: x in Keep(ids, stuck) <==> x in ids && x in stuck
    decreases |ids|
  {
    if ids != [] {
      KeepCounts(ids[1..], stuck);
      var kept := Keep(ids[1..], stuck);
      if ids[0] in stuck {
        assert Keep(ids, stuck)[1..] == kept;
      } else {
        assert Keep(ids, stuck) == kept;
      }
    }
  }

  /** What stands in front of an event that the batch does not reach. */
  function NextFront(front: seq<string>, stuck: set<string>): seq<string>
    requires |front| >= BATCH_LIMIT
  {
    Keep(front[..BATCH_LIMIT], stuck) + front[BATCH_LIMIT..]
  }

  lemma FrontShrinks(front: seq<string>, stuck: set<string>)
    requires |front| >= BATCH_LIMIT
    ensures var front' := NextFront(front, stuck);
      && CountStuck(front', stuck) == CountStuck(front, stuck)
      && |front| - |front'| == BATCH_LIMIT - CountStuck(front[..BATCH_LIMIT], stuck)
      && CountStuck(front[..BATCH_LIMIT], stuck) <= CountStuck(front, stuck)
      && (forall x :: x in front' ==> x in front)
  {
    var batch, rest := front[..BATCH_LIMIT], front[BATCH_LIMIT..];
    assert front == batch + rest;
    CountConcat(batch, rest, stuck);
    KeepCounts(batch, stuck);
    CountConcat(Keep(batch, stuck), rest, stuck);
  }

  lemma NotReached(front: seq<string>, x: string, back: seq<string>, stuck: set<string>)
    requires |front| >= BATCH_LIMIT
    ensures NextPending(front + [x] + back, stuck) == NextFront(front, stuck) + [x] + back
  {
    var all := front + [x] + back;
    assert Take(all, BATCH_LIMIT) == front[..BATCH_LIMIT];
    assert Drop(all, BATCH_LIMIT) == front[BATCH_LIMIT..] + [x] + back;
  }

  lemma Reached(front: seq<string>, x: string, back: seq<string>, stuck: set<string>)
    requires |front| < BATCH_LIMIT && x !in stuck && x !in back
    ensures x !in NextPending(front + [x] + back, stuck)
  {
    var all := front + [x] + back;
    KeepCounts(Take(all, BATCH_LIMIT), stuck);
    if |all| > BATCH_LIMIT {
      assert Drop(all, BATCH_LIMIT) == back[BATCH_LIMIT - |front| - 1..];
    }
  }

  lemma {:induction false} GoneStaysGone(ids: seq<string>, x: string, stuck: set<string>, arrivals: seq<seq<string>>)
    requires x !in ids && forall k :: 0 <= k < |arrivals| ==> x !in arrivals[k]
    ensures x !in After(ids, stuck, arrivals)
    decreases |arrivals|
  {
    if arrivals != [] {
      KeepCounts(Take(ids, BATCH_LIMIT), stuck);
      GoneStaysGone(NextPending(ids, stuck) + arrivals[0], x, stuck, arrivals[1..]);
    }
  }

  /** How many events `runs` batch runs clear if each clears at least `perRun`: their product. */
  function Capacity(runs: nat, perRun: int): int {
    if runs == 0 then 0 else perRun + Capacity(runs - 1, perRun)
  }

  lemma {:induction false} CapacityIsProduct(runs: nat, perRun: int)
    ensures Capacity(runs, perRun) == runs * perRun
    decreases runs
  {
    if runs > 0 {
      CapacityIsProduct(runs - 1, perRun);
      assert runs * perRun == (runs - 1) * perRun + perRun;
    }
  }

  lemma {:induction false} CapacityGrows(runs: nat, a: int, b: int)
    requires a <= b
    ensures Capacity(runs, a) <= Capacity(runs, b)
    decreases runs
  {
    if runs > 0 {
      CapacityGrows(runs - 1, a, b);
    }
  }

  /**
   With f < 50 failing events in front of it and g others, an event that does not
   fail is resolved once the runs made exceed g / (50 - f), whatever comes in
   behind it.
   */
  lemma {:induction false} ResolvedInTime(
    front: seq<string>, x: string, back: seq<string>, stuck: set<string>, arrivals: seq<seq<string>>)
    requires x !in stuck && x !in back && forall k :: 0 <= k < |arrivals| ==> x !in arrivals[k]
    requires CountStuck(front, stuck) < BATCH_LIMIT
    requires |front| - CountStuck(front, stuck) < Capacity(|arrivals|, BATCH_LIMIT - CountStuck(front, stuck))
    ensures x !in After(front + [x] + back, stuck, arrivals)
    decreases |arrivals|
  {
    var f := CountStuck(front, stuck);
    if arrivals == [] {
      assert false;
    } else {
      var next := NextPending(front + [x] + back, stuck) + arrivals[0];
      if |front| < BATCH_LIMIT {
        Reached(front, x, back, stuck);
        GoneStaysGone(next, x, stuck, arrivals[1..]);
      } else {
        NotReached(front, x, back, stuck);
        FrontShrinks(front, stuck);
        var front' := NextFront(front, stuck);
        assert next == front' + [x] + (back + arrivals[0]);
        ResolvedInTime(front', x, back + arrivals[0], stuck, arrivals[1..]);
      }
    }
  }

  /** With 50 or more failing events in front of it, an event stays pending and is never in a batch. */
  lemma {:induction false} NeverPicked(
    front: seq<string>, x: string, back: seq<string>, stuck: set<string>, arrivals: seq<seq<string>>)
    requires CountStuck(front, stuck) >= BATCH_LIMIT && x !in front
    requires x !in back && forall k :: 0 <= k < |arrivals| ==> x !in arrivals[k]
    ensures var ids := After(front + [x] + back, stuck, arrivals);
      x in ids && x !in Take(ids, BATCH_LIMIT)
    decreases |arrivals|
  {
    if arrivals == [] {
      assert Take(front + [x] + back, BATCH_LIMIT) == front[..BATCH_LIMIT];
      assert (front + [x] + back)[|front|] == x;
    } else {
      NotReached(front, x, back, stuck);
      FrontShrinks(front, stuck);
      var front' := NextFront(front, stuck);
      assert NextPending(front + [x] + back, stuck) + arrivals[0] == front' + [x] + (back + arrivals[0]);
      NeverPicked(front', x, back + arrivals[0], stuck, arrivals[1..]);
    }
  }

  lemma OneResolvedInTime(ids: seq<string>, i: nat, stuck: set<string>, arrivals: seq<seq<string>>)
    requires Distinct(ids) && CountStuck(ids, stuck) < BATCH_LIMIT
    requires Capacity(|arrivals|, BATCH_LIMIT - CountStuck(ids, stuck)) >= |ids| - CountStuck(ids, stuck)
    requires i < |ids| && ids[i] !in stuck && forall k :: 0 <= k < |arrivals| ==> ids[i] !in arrivals[k]
    ensures ids[i] !in After(ids, stuck, arrivals)
  {
    var front, back := ids[..i], ids[i + 1..];
    SplitAt(ids, i, stuck);
    CapacityGrows(|arrivals|, BATCH_LIMIT - CountStuck(ids, stuck), BATCH_LIMIT - CountStuck(front, stuck));
    ResolvedInTime(front, ids[i], back, stuck, arrivals);
  }

  lemma SplitAt(ids: seq<string>, i: nat, stuck: set<string>)
    requires Distinct(ids) && i < |ids| && ids[i] !in stuck
    ensures ids[..i] + [ids[i]] + ids[i + 1..] == ids && ids[i] !in ids[i + 1..]
    ensures CountStuck(ids, stuck) == CountStuck(ids[..i], stuck) + CountStuck(ids[i + 1..], stuck)
  {
    var front, back := ids[..i], ids[i + 1..];
    assert ids == front + [ids[i]] + back;
    CountConcat(front + [ids[i]], back, stuck);
    CountConcat(front, [ids[i]], stuck);
  }

  // ---------------------------------------------------------------- the same about the tables

  /** One batch run, and the events that are recorded after it. */
  datatype Round = Round(answers: AnswersTo, arrivals: seq<DeletionEvent>)

  function AfterRound(db: Db, round: Round): Db {
    var db1 := ProcessAll(db, Take(Pending(db.events), BATCH_LIMIT), round.answers).0;
    db1.(events := db1.events + round.arrivals)
  }

  function Rounds(db: Db, rounds: seq<Round>): Db
    decreases |rounds|
  {
    if rounds == [] then db else Rounds(AfterRound(db, rounds[0]), rounds[1..])
  }

  /** The events of the table and those still to come. */
  function AllEvents(events: seq<DeletionEvent>, rounds: seq<Round>): seq<DeletionEvent>
    decreases |rounds|
  {
    if rounds == [] then events else AllEvents(events + rounds[0].arrivals, rounds[1..])
  }

  /** With these answers exactly the events named in `stuck` would stay pending. */
  ghost predicate FailsExactly(db: Db, events: seq<DeletionEvent>, answers: AnswersTo, stuck: set<string>) {
    forall k :: 0 <= k < |events| ==> (events[k].id in stuck <==> !Resolves(db, events[k], answers(events[k].id)))
  }

  /** Ids are unique, and in every round the same events fail. */
  ghost predicate Steady(db: Db, rounds: seq<Round>, stuck: set<string>) {
    && UniqueIds(AllEvents(db.events, rounds))
    && forall j :: 0 <= j < |rounds| ==> FailsExactly(db, AllEvents(db.events, rounds), rounds[j].answers, stuck)
  }

  /** The same events in the same places, resolved or not; nothing is unresolved again. */
  ghost predicate SameEvents(a: seq<DeletionEvent>, b: seq<DeletionEvent>) {
    && |a| == |b|
    && forall k :: 0 <= k < |a| ==> b[k].id == a[k].id && b[k].uid == a[k].uid && (a[k].Resolved() ==> b[k].Resolved())
  }

  lemma {:induction false} ProcessAllFrame(db: Db, todo: seq<DeletionEvent>, answers: AnswersTo)
    ensures var db' := ProcessAll(db, todo, answers).0;
      db'.businesses == db.businesses && db'.users == db.users && SameEvents(db.events, db'.events)
    decreases |todo|
  {
    if todo != [] {
      ProcessAllFrame(Process(db, todo[0], answers(todo[0].id)).0, todo[1..], answers);
    }
  }

  lemma {:induction false} AllEventsSame(a: seq<DeletionEvent>, b: seq<DeletionEvent>, rounds: seq<Round>)
    requires SameEvents(a, b)
    ensures SameEvents(AllEvents(a, rounds), AllEvents(b, rounds))
    decreases |rounds|
  {
    if rounds != [] {
      AllEventsSame(a + rounds[0].arrivals, b + rounds[0].arrivals, rounds[1..]);
    }
  }

  lemma {:induction false} AllEventsExtend(events: seq<DeletionEvent>, rounds: seq<Round>)
    ensures events <= AllEvents(events, rounds)
    decreases |rounds|
  {
    if rounds != [] {
      AllEventsExtend(events + rounds[0].arrivals, rounds[1..]);
    }
  }

  lemma FailureCarriesOver(
    db: Db, a: seq<DeletionEvent>, db': Db, b: seq<DeletionEvent>, answers: AnswersTo, stuck: set<string>)
    requires FailsExactly(db, a, answers, stuck) && SameEvents(a, b)
    requires db'.businesses == db.businesses && db'.users == db.users
    ensures FailsExactly(db', b, answers, stuck)
  {
  }

  lemma SteadyNext(db: Db, rounds: seq<Round>, stuck: set<string>)
    requires Steady(db, rounds, stuck) && rounds != []
    ensures Steady(AfterRound(db, rounds[0]), rounds[1..], stuck)
  {
    var db', rest := AfterRound(db, rounds[0]), rounds[1..];
    ProcessAllFrame(db, Take(Pending(db.events), BATCH_LIMIT), rounds[0].answers);
    AllEventsSame(db.events + rounds[0].arrivals, db'.events, rest);
    var all, all' := AllEvents(db.events, rounds), AllEvents(db'.events, rest);
    assert SameEvents(all, all');
    forall j | 0 <= j < |rest|
      ensures FailsExactly(db', all', rest[j].answers, stuck)
    {
      assert rest[j] == rounds[j + 1];
      FailureCarriesOver(db, all, db', all', rest[j].answers, stuck);
    }
  }

  lemma {:induction false} PendingConcat(a: seq<DeletionEvent>, b: seq<DeletionEvent>)
    ensures Pending(a + b) == Pending(a) + Pending(b)
    ensures Ids(Pending(a + b)) == Ids(Pending(a)) + Ids(Pending(b))
    decreases |a|
  {
    if a == [] {
      assert a + b == b;
    } else {
      assert (a + b)[1..] == a[1..] + b;
      PendingConcat(a[1..], b);
    }
  }

  function ArrivalIds(rounds: seq<Round>): (r: seq<seq<string>>)
    ensures |r| == |rounds|
  {
    seq(|rounds|, j requires 0 <= j < |rounds| => Ids(Pending(rounds[j].arrivals)))
  }

  /** One round on the table is one run on the ids. */
  lemma AfterRoundPending(db: Db, rounds: seq<Round>, stuck: set<string>)
    requires Steady(db, rounds, stuck) && rounds != []
    ensures Ids(Pending(AfterRound(db, rounds[0]).events))
         == NextPending(Ids(Pending(db.events)), stuck) + Ids(Pending(rounds[0].arrivals))
  {
    AllEventsExtend(db.events, rounds);
    var all := AllEvents(db.events, rounds);
    assert FailsExactly(db, all, rounds[0].answers, stuck);
    assert forall k :: 0 <= k < |db.events| ==> db.events[k] == all[k];
    BatchLeaves(db, rounds[0].answers, stuck);
    PendingConcat(ProcessAll(db, Take(Pending(db.events), BATCH_LIMIT), rounds[0].answers).0.events, rounds[0].arrivals);
  }

  lemma {:induction false} RoundsFollow(db: Db, rounds: seq<Round>, stuck: set<string>)
    requires Steady(db, rounds, stuck)
    ensures Ids(Pending(Rounds(db, rounds).events)) == After(Ids(Pending(db.events)), stuck, ArrivalIds(rounds))
    decreases |rounds|
  {
    if rounds != [] {
      AfterRoundPending(db, rounds, stuck);
      SteadyNext(db, rounds, stuck);
      RoundsFollow(AfterRound(db, rounds[0]), rounds[1..], stuck);
      assert ArrivalIds(rounds)[1..] == ArrivalIds(rounds[1..]);
    }
  }

  /** Events stay in their places through all rounds, and ids stay unique. */
  lemma {:induction false} RoundsKeep(db: Db, rounds: seq<Round>, stuck: set<string>)
    requires Steady(db, rounds, stuck)
    ensures var end := Rounds(db, rounds).events;
      |db.events| <= |end| && SameEvents(db.events, end[..|db.events|]) && UniqueIds(end)
    decreases |rounds|
  {
    if rounds == [] {
      assert db.events[..|db.events|] == db.events;
    } else {
      var db1 := AfterRound(db, rounds[0]);
      ProcessAllFrame(db, Take(Pending(db.events), BATCH_LIMIT), rounds[0].answers);
      SteadyNext(db, rounds, stuck);
      RoundsKeep(db1, rounds[1..], stuck);
      var end := Rounds(db, rounds).events;
      assert SameEvents(db.events, db1.events[..|db.events|]);
      assert forall k :: 0 <= k < |db.events| ==> end[..|db.events|][k] == end[..|db1.events|][k];
    }
  }

  lemma {:induction false} PendingHasUnresolved(events: seq<DeletionEvent>, k: nat)
    requires k < |events| && !events[k].Resolved()
    ensures Ids(Pending(events)) == Ids(Pending(events[..k])) + [events[k].id] + Ids(Pending(events[k + 1..]))
    ensures events[k].id in Ids(Pending(events))
  {
    assert events == events[..k] + ([events[k]] + events[k + 1..]);
    PendingConcat(events[..k], [events[k]] + events[k + 1..]);
    PendingConcat([events[k]], events[k + 1..]);
    assert Pending([events[k]]) == [events[k]];
    var front := Ids(Pending(events[..k]));
    assert Ids(Pending(events))[|front|] == events[k].id;
  }

  lemma IdsOfSome(events: seq<DeletionEvent>, x: string)
    requires x in Ids(Pending(events))
    ensures exists k :: 0 <= k < |events| && events[k].id == x && !events[k].Resolved()
  {
    PendingMembers(events);
    var j :| 0 <= j < |Ids(Pending(events))| && Ids(Pending(events))[j] == x;
    var k :| 0 <= k < |events| && events[k] == Pending(events)[j];
  }

  /** The event's id is nobody else's: not in front of it, not behind it, not among the arrivals. */
  lemma {:induction false} IdIsOwn(events: seq<DeletionEvent>, rounds: seq<Round>, k: nat)
    requires UniqueIds(AllEvents(events, rounds)) && k < |events|
    ensures events[k].id !in Ids(Pending(events[..k])) && events[k].id !in Ids(Pending(events[k + 1..]))
    ensures forall j :: 0 <= j < |rounds| ==> events[k].id !in ArrivalIds(rounds)[j]
    decreases |rounds|
  {
    var x := events[k].id;
    AllEventsExtend(events, rounds);
    assert forall i :: 0 <= i < |events| ==> events[i] == AllEvents(events, rounds)[i];
    if x in Ids(Pending(events[..k])) { IdsOfSome(events[..k], x); }
    if x in Ids(Pending(events[k + 1..])) { IdsOfSome(events[k + 1..], x); }
    if rounds != [] {
      var more := events + rounds[0].arrivals;
      IdIsOwn(more, rounds[1..], k);
      assert more[k] == events[k];
      NotAmongLater(events, rounds[0].arrivals, rounds[1..], k);
      forall j | 0 <= j < |rounds|
        ensures x !in ArrivalIds(rounds)[j]
      {
        assert j > 0 ==> ArrivalIds(rounds)[j] == ArrivalIds(rounds[1..])[j - 1];
      }
    }
  }

  lemma NotAmongLater(events: seq<DeletionEvent>, arrivals: seq<DeletionEvent>, rounds: seq<Round>, k: nat)
    requires UniqueIds(AllEvents(events + arrivals, rounds)) && k < |events|
    ensures events[k].id !in Ids(Pending(arrivals))
  {
    var more := events + arrivals;
    AllEventsExtend(more, rounds);
    assert forall i :: 0 <= i < |more| ==> more[i] == AllEvents(more, rounds)[i];
    assert forall j :: 0 <= j < |arrivals| ==> more[|events| + j] == arrivals[j] && more[|events| + j].id != more[k].id;
    if events[k].id in Ids(Pending(arrivals)) {
      IdsOfSome(arrivals, events[k].id);
    }
  }

  /** How many of the failing events are older than the one at position `k`. */
  function StuckBefore(db: Db, k: nat, stuck: set<string>): nat
    requires k <= |db.events|
  {
    CountStuck(Ids(Pending(db.events[..k])), stuck)
  }

  /** The event at `k` is pending after the rounds exactly if its id is among the pending ids. */
  lemma StillPending(db: Db, rounds: seq<Round>, stuck: set<string>, k: nat)
    requires Steady(db, rounds, stuck) && k < |db.events| && !db.events[k].Resolved()
    ensures k < |Rounds(db, rounds).events|
    ensures var front, back := Ids(Pending(db.events[..k])), Ids(Pending(db.events[k + 1..]));
      var end := Rounds(db, rounds).events;
      && Ids(Pending(end)) == After(front + [db.events[k].id] + back, stuck, ArrivalIds(rounds))
      && (!end[k].Resolved() <==> db.events[k].id in Ids(Pending(end)))
  {
    var x, end := db.events[k].id, Rounds(db, rounds).events;
    RoundsFollow(db, rounds, stuck);
    RoundsKeep(db, rounds, stuck);
    PendingHasUnresolved(db.events, k);
    assert end[..|db.events|][k] == end[k];
    if !end[k].Resolved() {
      PendingHasUnresolved(end, k);
    }
    if x in Ids(Pending(end)) {
      IdsOfSome(end, x);
    }
  }

  /**
   With 50 or more failing older events an event stays unresolved through every
   sequence of rounds, whatever arrives, and the next batch passes it by.
   */
  lemma EventNeverPicked(db: Db, rounds: seq<Round>, stuck: set<string>, k: nat)
    requires Steady(db, rounds, stuck) && k < |db.events| && !db.events[k].Resolved()
    requires StuckBefore(db, k, stuck) >= BATCH_LIMIT
    ensures var end := Rounds(db, rounds).events;
      && k < |end| && end[k].id == db.events[k].id && !end[k].Resolved()
      && forall e :: e in Take(Pending(end), BATCH_LIMIT) ==> e.id != db.events[k].id
  {
    var x, end := db.events[k].id, Rounds(db, rounds).events;
    IdIsOwn(db.events, rounds, k);
    StillPending(db, rounds, stuck, k);
    RoundsKeep(db, rounds, stuck);
    NeverPicked(Ids(Pending(db.events[..k])), x, Ids(Pending(db.events[k + 1..])), stuck, ArrivalIds(rounds));
    assert end[..|db.events|][k] == end[k];
    IdsSplit(Pending(end));
    forall e | e in Take(Pending(end), BATCH_LIMIT)
      ensures e.id != x
    {
      var j :| 0 <= j < |Take(Pending(end), BATCH_LIMIT)| && Take(Pending(end), BATCH_LIMIT)[j] == e;
      assert Ids(Take(Pending(end), BATCH_LIMIT))[j] == e.id;
    }
  }

  lemma EventResolvedInRounds(db: Db, rounds: seq<Round>, stuck: set<string>, k: nat)
    requires Steady(db, rounds, stuck) && k < |db.events| && db.events[k].id !in stuck && !db.events[k].Resolved()
    requires StuckBefore(db, k, stuck) < BATCH_LIMIT
    requires |Pending(db.events[..k])| - StuckBefore(db, k, stuck)
             < Capacity(|rounds|, BATCH_LIMIT - StuckBefore(db, k, stuck))
    ensures k < |Rounds(db, rounds).events| && Rounds(db, rounds).events[k].Resolved()
  {
    IdIsOwn(db.events, rounds, k);
    StillPending(db, rounds, stuck, k);
    var front, back := Ids(Pending(db.events[..k])), Ids(Pending(db.events[k + 1..]));
    ResolvedInTime(front, db.events[k].id, back, stuck, ArrivalIds(rounds));
  }

  /**
   With f < 50 failing and g other pending events older than it, an event that does
   not fail is resolved once the rounds exceed g / (50 - f), whatever arrives.
   */
  lemma EventResolvedInTime(db: Db, rounds: seq<Round>, stuck: set<string>, k: nat)
    requires Steady(db, rounds, stuck) && k < |db.events| && db.events[k].id !in stuck
    requires StuckBefore(db, k, stuck) < BATCH_LIMIT
    requires |Pending(db.events[..k])| - StuckBefore(db, k, stuck) < |rounds| * (BATCH_LIMIT - StuckBefore(db, k, stuck))
    ensures k < |Rounds(db, rounds).events| && Rounds(db, rounds).events[k].Resolved()
  {
    CapacityIsProduct(|rounds|, BATCH_LIMIT - StuckBefore(db, k, stuck));
    if db.events[k].Resolved() {
      RoundsKeep(db, rounds, stuck);
      assert Rounds(db, rounds).events[..|db.events|][k] == Rounds(db, rounds).events[k];
    } else {
      EventResolvedInRounds(db, rounds, stuck, k);
    }
  }

  /** The same answers again and again, and nothing new. */
  function Idle(answers: AnswersTo, runs: nat): seq<Round> { seq(runs, _ => Round(answers, [])) }

  lemma {:induction false} IdleAddsNothing(events: seq<DeletionEvent>, answers: AnswersTo, runs: nat)
    ensures AllEvents(events, Idle(answers, runs)) == events
    decreases runs
  {
    if runs > 0 {
      assert Idle(answers, runs)[1..] == Idle(answers, runs - 1) && events + [] == events;
      IdleAddsNothing(events, answers, runs - 1);
    }
  }

  lemma IdleIsSteady(db: Db, answers: AnswersTo, stuck: set<string>, runs: nat)
    requires UniqueIds(db.events) && FailsExactly(db, db.events, answers, stuck)
    ensures Steady(db, Idle(answers, runs), stuck)
  {
    IdleAddsNothing(db.events, answers, runs);
  }

  predicate ResolvedAt(db: Db, rounds: seq<Round>, k: nat) {
    var end := Rounds(db, rounds).events; k < |end| && end[k].Resolved()
  }

  /** After `runs` rounds the event at `k` is resolved, whatever the answers and the arrivals were. */
  ghost predicate ResolvedBy(db: Db, stuck: set<string>, k: nat, runs: nat) {
    forall rounds :: Steady(db, rounds, stuck) && |rounds| >= runs ==> ResolvedAt(db, rounds, k)
  }

  lemma ResolvedByFront(db: Db, stuck: set<string>, k: nat)
    requires k < |db.events| && !db.events[k].Resolved() && db.events[k].id !in stuck
    requires StuckBefore(db, k, stuck) < BATCH_LIMIT
    ensures ResolvedBy(db, stuck, k, |Pending(db.events[..k])| + 1)
  {
    forall rounds | Steady(db, rounds, stuck) && |rounds| >= |Pending(db.events[..k])| + 1
      ensures ResolvedAt(db, rounds, k)
    {
      CapacityGrows(|rounds|, 1, BATCH_LIMIT - StuckBefore(db, k, stuck));
      CapacityIsProduct(|rounds|, 1);
      EventResolvedInRounds(db, rounds, stuck, k);
    }
  }

  /**
   An event that does not fail is resolved after some number of rounds, whatever the
   answers and the arrivals, if and only if fewer than 50 failing ones are older; and
   otherwise no rounds ever resolve it. `answers` shows that the events of `stuck` can
   be the failing ones.
   */
  lemma EventResolvedExactlyWhen(db: Db, answers: AnswersTo, stuck: set<string>, k: nat)
    requires UniqueIds(db.events) && FailsExactly(db, db.events, answers, stuck)
    requires k < |db.events| && !db.events[k].Resolved() && db.events[k].id !in stuck
    ensures StuckBefore(db, k, stuck) < BATCH_LIMIT <==> exists runs: nat :: ResolvedBy(db, stuck, k, runs)
    ensures StuckBefore(db, k, stuck) < BATCH_LIMIT <==>
            exists rounds :: Steady(db, rounds, stuck) && ResolvedAt(db, rounds, k)
  {
    if StuckBefore(db, k, stuck) < BATCH_LIMIT {
      var runs := |Pending(db.events[..k])| + 1;
      ResolvedByFront(db, stuck, k);
      IdleIsSteady(db, answers, stuck, runs);
      assert ResolvedAt(db, Idle(answers, runs), k);
    } else {
      forall rounds | Steady(db, rounds, stuck)
        ensures !ResolvedAt(db, rounds, k)
      {
        EventNeverPicked(db, rounds, stuck, k);
      }
      forall runs: nat
        ensures !ResolvedBy(db, stuck, k, runs)
      {
        IdleIsSteady(db, answers, stuck, runs);
        assert !ResolvedAt(db, Idle(answers, runs), k);
      }
    }
  }

  /**
   The tables after enough rounds: with f < 50 of n pending events failing every
   time, ceil((n - f) / (50 - f)) rounds resolve every other event, whatever arrives.
   */
  lemma BatchRunsResolve(db: Db, rounds: seq<Round>, stuck: set<string>)
    requires Steady(db, rounds, stuck)
    requires var ids := Ids(Pending(db.events));
      && CountStuck(ids, stuck) < BATCH_LIMIT
      && |rounds| * (BATCH_LIMIT - CountStuck(ids, stuck)) >= |ids| - CountStuck(ids, stuck)
    ensures var end := Rounds(db, rounds).events;
      |db.events| <= |end| && forall k :: 0 <= k < |db.events| ==> end[k].Resolved() || end[k].id in stuck
  {
    var ids, end := Ids(Pending(db.events)), Rounds(db, rounds).events;
    RoundsKeep(db, rounds, stuck);
    forall k | 0 <= k < |db.events|
      ensures end[k].Resolved() || end[k].id in stuck
    {
      assert end[..|db.events|][k] == end[k];
      if !db.events[k].Resolved() && db.events[k].id !in stuck {
        PendingIsResolved(db, rounds, stuck, k);
      }
    }
  }

  lemma PendingIsResolved(db: Db, rounds: seq<Round>, stuck: set<string>, k: nat)
    requires Steady(db, rounds, stuck)
    requires k < |db.events| && !db.events[k].Resolved() && db.events[k].id !in stuck
    requires var ids := Ids(Pending(db.events));
      && CountStuck(ids, stuck) < BATCH_LIMIT
      && |rounds| * (BATCH_LIMIT - CountStuck(ids, stuck)) >= |ids| - CountStuck(ids, stuck)
    ensures k < |Rounds(db, rounds).events| && Rounds(db, rounds).events[k].Resolved()
  {
    var ids, i := Ids(Pending(db.events)), |Pending(db.events[..k])|;
    CapacityIsProduct(|rounds|, BATCH_LIMIT - CountStuck(ids, stuck));
    PendingHasUnresolved(db.events, k);
    assert ids[i] == db.events[k].id;
    AllEventsExtend(db.events, rounds);
    PendingMembers(db.events);
    IdIsOwn(db.events, rounds, k);
    OneResolvedInTime(ids, i, stuck, ArrivalIds(rounds));
    RoundsFollow(db, rounds, stuck);
    StillPending(db, rounds, stuck, k);
  }
}
