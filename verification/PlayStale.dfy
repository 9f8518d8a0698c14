/**
 When a replaced token stays silent. "A replaced token must never change the plan
 again" (index.ts) is decided by what each handler read before the token was
 marked: exactly the handlers that would still apply it are the danger, and none
 can join them once the mark is there.
 */
module PlayStale {
  import opened Prelude
  import opened PlayDecision
  import opened PlayMachine

  predicate IsReplaced(db: Db, o: string) {
    o in db.rows && Truthy(db.rows[o].replacedBy)
  }

  /** The handler has read the row of `o`, and what it read makes it apply the token. */
  predicate Stale(h: Handler, o: string) {
    && h.e.token == o
    && (h.pc.Write? || h.pc.MarkReplaced? || h.pc.Decide?)
    && DecideApply(h.v, if h.prior.Some? then h.prior.value.replacedBy else None, h.prior, h.e.Note(), h.e.now).Apply?
  }

  ghost predicate NoneStale(w: World, o: string) {
    forall i :: 0 <= i < |w.handlers| ==> !Stale(w.handlers[i], o)
  }

  /** Nothing was applied for `o` between the two states. */
  ghost predicate Silent(db: Db, db': Db, o: string) {
    && db.log <= db'.log
    && forall k :: |db.log| <= k < |db'.log| ==> db'.log[k].token != o
  }

  /** Only a stale handler applies a replaced token, and no handler becomes stale. */
  lemma StepIsSilent(google: Google, db: Db, h: Handler, lost: bool, o: string)
    requires IsReplaced(db, o) && !Stale(h, o)
    ensures var (db', h') := Step(google, db, h, lost);
      IsReplaced(db', o) && !Stale(h', o) && Silent(db, db', o)
  {
  }

  lemma ActIsSilent(google: Google, w: World, a: Action, o: string)
    requires IsReplaced(w.db, o) && NoneStale(w, o)
    ensures var w' := Act(google, w, a);
      IsReplaced(w'.db, o) && NoneStale(w', o) && Silent(w.db, w'.db, o)
  {
    if a.Run? && a.i < |w.handlers| {
      StepIsSilent(google, w.db, w.handlers[a.i], a.lost, o);
    }
  }

  lemma {:induction false} StaysSilent(google: Google, w: World, schedule: seq<Action>, o: string)
    requires IsReplaced(w.db, o) && NoneStale(w, o)
    ensures Silent(w.db, Exec(google, w, schedule).db, o)
    decreases |schedule|
  {
    if schedule != [] {
      ActIsSilent(google, w, schedule[0], o);
      StaysSilent(google, Act(google, w, schedule[0]), schedule[1..], o);
    }
  }

  /** A stale handler on its own goes on to apply the token. */
  lemma {:induction false} StaleApplies(google: Google, db: Db, h: Handler, o: string) returns (n: nat)
    requires Stale(h, o)
    ensures Steps(google, db, h, n).0.log == db.log + [Applied(h.business, o, h.v)]
    decreases if h.pc.Write? then 2 else if h.pc.MarkReplaced? then 1 else 0
  {
    var (db1, h1) := Step(google, db, h, false);
    if h.pc.Decide? {
      n := 1;
      assert Steps(google, db1, h1, 0) == (db1, h1);
    } else {
      n := StaleApplies(google, db1, h1, o);
      n := n + 1;
    }
  }

  /**
   The exact condition. Take any state in which token `o` is marked as replaced.
   No continuation whatsoever applies `o` again if and only if no request in flight
   read `o` before the mark and would apply it.
   */
  lemma ReplacedSilentExactlyWhen(google: Google, w: World, o: string)
    requires IsReplaced(w.db, o)
    ensures (forall schedule :: Silent(w.db, Exec(google, w, schedule).db, o)) <==> NoneStale(w, o)
  {
    if NoneStale(w, o) {
      forall schedule
        ensures Silent(w.db, Exec(google, w, schedule).db, o)
      {
        StaysSilent(google, w, schedule, o);
      }
    } else {
      var i :| 0 <= i < |w.handlers| && Stale(w.handlers[i], o);
      var n := StaleApplies(google, w.db, w.handlers[i], o);
      RunsAreSteps(google, w, i, n, []);
      assert Runs(i, n) + [] == Runs(i, n);
      var db' := Exec(google, w, Runs(i, n)).db;
      assert db'.log[|w.db.log|].token == o;
      assert !Silent(w.db, db', o);
    }
  }
}
