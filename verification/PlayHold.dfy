/**
 The early-lapse hold of `decideApply`: when a lapse is kept from the plan, over
 every serial history. The stored row is overwritten by every report, held ones
 included, so what counts is the report before the lapse, not the paid end date.
 */
module PlayHold {
  import opened Prelude
  import opened PlayDecision
  import opened PlayService

  /** The event brings a report of `o` to the database on behalf of the business `o` is bound to. */
  predicate Reaches(google: Google, business: string, o: string, e: Event) {
    e.token == o && o != "" && e.report.Some? && MayActFor(google, business, e)
  }

  /** An app call is only let through for its own business and against no other account tag. */
  predicate MayActFor(google: Google, business: string, e: Event) {
    e.AppVerify? ==>
      e.owner && e.business == business && (Truthy(google.tag(e.token)) ==> google.tag(e.token) == Some(business))
  }

  /** The event could mark `o` as replaced: a report, past its payment, of a token Play links to `o`. */
  predicate MayReplace(google: Google, business: string, o: string, e: Event) {
    && e.token != o && google.link(e.token) == Some(o)
    && e.report.Some? && !IsPending(e.report.value.state) && MayActFor(google, business, e)
  }

  /** The lapse `e` of a token whose last report is `p` is held. */
  predicate Held(p: Purchase, e: Event) {
    e.Note() != Some(RTDN_REVOKED) && StillPaid(p, e.now)
  }

  /** Every lapse of `o` among the events finds the report before it still paid, and none is a revoke. */
  predicate AllHeld(google: Google, business: string, o: string, p: Purchase, events: seq<Event>)
    decreases |events|
  {
    events == [] ||
    var e, rest := events[0], events[1..];
    if Reaches(google, business, o, e) then
      (e.report.value.state.Expired? ==> Held(p, e))
      && AllHeld(google, business, o, Fetch(google, o, e.report).value, rest)
    else AllHeld(google, business, o, p, rest)
  }

  /** From entry `from` on, the log has no lapse of `o`. */
  ghost predicate LapseFree(log: seq<Applied>, from: nat, o: string) {
    forall k :: from <= k < |log| ==> !(log[k].token == o && log[k].purchase.state.Expired?)
  }

  /** The events that are served while `o` is not marked as replaced. */
  function WhileLive(google: Google, db: Db, o: string, events: seq<Event>): seq<Event>
    decreases |events|
  {
    if events == [] || o !in db.rows || db.rows[o].replacedBy.Some? then []
    else [events[0]] + WhileLive(google, Serve(google, db, events[0]).0, o, events[1..])
  }

  // ---------------------------------------------------------------- one event

  /** Who gets through for a bound token. */
  lemma AdmitsExactly(google: Google, db: Db, e: Event)
    requires Sound(google, db) && e.token in db.rows
    ensures Admit(google, db, e).0 ==
      if Reaches(google, db.rows[e.token].business, e.token, e) then Some(db.rows[e.token].business) else None
  {
  }

  /** What an event about the unreplaced token `o` does. */
  lemma OwnEvent(google: Google, db: Db, e: Event, o: string)
    requires Sound(google, db) && o in db.rows && db.rows[o].replacedBy.None? && e.token == o
    ensures var db', p := Serve(google, db, e).0, db.rows[o].purchase;
      && o in db'.rows && db'.rows[o].replacedBy.None?
      && if Reaches(google, db.rows[o].business, o, e) then
           var v := Fetch(google, o, e.report).value;
           && db'.rows[o].purchase == v
           && db'.log == (if v.state.Expired? && Held(p, e) then db.log
                          else db.log + [Applied(db.rows[o].business, o, v)])
         else db' == db
  {
    AdmitsExactly(google, db, e);
  }

  /** An event about another token leaves the report of `o` alone, and can only mark `o`. */
  lemma OtherEvent(google: Google, db: Db, e: Event, o: string)
    requires Sound(google, db) && o in db.rows && e.token != o
    ensures var db' := Serve(google, db, e).0;
      && o in db'.rows && db'.rows[o].purchase == db.rows[o].purchase
      && (db'.rows[o].replacedBy != db.rows[o].replacedBy ==> MayReplace(google, db.rows[o].business, o, e))
      && (db'.log == db.log || exists a :: db'.log == db.log + [a] && a.token != o)
  {
    if Admit(google, db, e).0.Some? {
      AdmitBinds(google, db, e);
      var b, v := Admit(google, db, e).0.value, Fetch(google, e.token, e.report).value;
      var db' := Persist(db, b, e.token, v, e.Note(), e.now).0;
      assert db'.log != db.log ==> db'.log == db.log + [Applied(b, e.token, v)];
    }
  }

  /** Whether one event applies a lapse of `o`, and what it leaves for the next. */
  lemma EventEffect(google: Google, db: Db, e: Event, o: string)
    requires Sound(google, db) && o in db.rows && db.rows[o].replacedBy.None?
    ensures var db', b, p := Serve(google, db, e).0, db.rows[o].business, db.rows[o].purchase;
      && o in db'.rows && db'.rows[o].business == b
      && db'.rows[o].purchase == (if Reaches(google, b, o, e) then Fetch(google, o, e.report).value else p)
      && (db'.rows[o].replacedBy.Some? ==> MayReplace(google, b, o, e))
      && (LapseFree(db'.log, |db.log|, o)
          <==> (Reaches(google, b, o, e) && e.report.value.state.Expired? ==> Held(p, e)))
  {
    ServeKeeps(google, db, e);
    if e.token == o {
      OwnEvent(google, db, e, o);
      var db' := Serve(google, db, e).0;
      if |db'.log| > |db.log| {
        assert db'.log[|db.log|].purchase == Fetch(google, o, e.report).value;
      }
    } else {
      OtherEvent(google, db, e, o);
    }
  }

  // ---------------------------------------------------------------- every history

  lemma LapseFreeSplit(log: seq<Applied>, log1: seq<Applied>, end: seq<Applied>, o: string)
    requires log <= log1 <= end
    ensures LapseFree(end, |log|, o) <==> LapseFree(log1, |log|, o) && LapseFree(end, |log1|, o)
  {
    if LapseFree(end, |log|, o) {
      assert forall k :: |log| <= k < |log1| ==> log1[k] == end[k];
    }
    if LapseFree(log1, |log|, o) && LapseFree(end, |log1|, o) {
      assert forall k :: |log| <= k < |log1| ==> end[k] == log1[k];
    }
  }

  lemma ReplacedIsLapseFree(google: Google, db: Db, o: string, events: seq<Event>)
    requires Sound(google, db) && o in db.rows && db.rows[o].replacedBy.Some?
    ensures LapseFree(ServeAll(google, db, events).log, |db.log|, o)
  {
    SerialRunsKeep(google, db, events);
  }

  /**
   The hold, for every serial history. No lapse of a stored token is applied if and
   only if every lapse that reaches it before it is marked as replaced is no revoke
   and finds the token's previous report still paid.
   */
  lemma {:induction false} HeldUntilReplaced(google: Google, db: Db, o: string, events: seq<Event>)
    requires Sound(google, db) && o in db.rows
    ensures LapseFree(ServeAll(google, db, events).log, |db.log|, o)
            <==> AllHeld(google, db.rows[o].business, o, db.rows[o].purchase, WhileLive(google, db, o, events))
    decreases |events|
  {
    if events == [] {
    } else if db.rows[o].replacedBy.Some? {
      ReplacedIsLapseFree(google, db, o, events);
    } else {
      var e, db1 := events[0], Serve(google, db, events[0]).0;
      EventEffect(google, db, e, o);
      ServeKeeps(google, db, e);
      HeldUntilReplaced(google, db1, o, events[1..]);
      SerialRunsKeep(google, db1, events[1..]);
      LapseFreeSplit(db.log, db1.log, ServeAll(google, db, events).log, o);
      assert WhileLive(google, db, o, events)[1..] == WhileLive(google, db1, o, events[1..]);
    }
  }

  lemma {:induction false} StaysLive(google: Google, db: Db, o: string, events: seq<Event>)
    requires Sound(google, db) && o in db.rows && db.rows[o].replacedBy.None?
    requires forall e :: e in events ==> !MayReplace(google, db.rows[o].business, o, e)
    ensures WhileLive(google, db, o, events) == events
    ensures var end := ServeAll(google, db, events); o in end.rows && end.rows[o].replacedBy.None?
    decreases |events|
  {
    if events != [] {
      EventEffect(google, db, events[0], o);
      ServeKeeps(google, db, events[0]);
      assert events[0] in events;
      StaysLive(google, Serve(google, db, events[0]).0, o, events[1..]);
    }
  }

  /**
   The same as a condition on the events alone, while nothing that could replace the
   token is reported. A second lapse, by whatever delivery, is never held.
   */
  lemma HeldExactlyWhen(google: Google, db: Db, o: string, events: seq<Event>)
    requires Sound(google, db) && o in db.rows && db.rows[o].replacedBy.None?
    requires forall e :: e in events ==> !MayReplace(google, db.rows[o].business, o, e)
    ensures LapseFree(ServeAll(google, db, events).log, |db.log|, o)
            <==> AllHeld(google, db.rows[o].business, o, db.rows[o].purchase, events)
  {
    StaysLive(google, db, o, events);
    HeldUntilReplaced(google, db, o, events);
  }

  // ---------------------------------------------------------------- the same lapse again and again

  /** The same notification delivered once per clock reading. */
  function Redelivered(token: string, note: Option<int>, report: Report, clocks: seq<int>): seq<Event> {
    seq(|clocks|, i requires 0 <= i < |clocks| => Rtdn(token, note, Some(report), clocks[i]))
  }

  function Times(n: nat, a: Applied): seq<Applied> { seq(n, _ => a) }

  /** A notification about a stored, unreplaced token is persisted for its business. */
  lemma RtdnPersists(google: Google, db: Db, token: string, note: Option<int>, report: Report, now: int)
    requires Sound(google, db) && token != "" && token in db.rows && db.rows[token].replacedBy.None?
    ensures var v := Fetch(google, token, Some(report)).value;
      var business := db.rows[token].business;
      var db' := Serve(google, db, Rtdn(token, note, Some(report), now)).0;
      && Sound(google, db')
      && token in db'.rows && db'.rows[token] == Row(business, v, None)
      && db'.log == (if DecideApply(v, None, Some(db.rows[token]), note, now).Apply?
                     then db.log + [Applied(business, token, v)] else db.log)
  {
    ServeKeeps(google, db, Rtdn(token, note, Some(report), now));
  }

  /** Once the stored state is the lapse itself, nothing holds it any more. */
  lemma {:induction false} LapseAfterLapse(
    google: Google, db: Db, token: string, note: Option<int>, report: Report, clocks: seq<int>)
    requires Sound(google, db) && report.state.Expired? && token != ""
    requires token in db.rows && db.rows[token].purchase == Fetch(google, token, Some(report)).value
    requires db.rows[token].replacedBy.None?
    ensures ServeAll(google, db, Redelivered(token, note, report, clocks)).log
         == db.log + Times(|clocks|, Applied(db.rows[token].business, token, db.rows[token].purchase))
    decreases |clocks|
  {
    if clocks == [] {
      assert Redelivered(token, note, report, clocks) == [];
    } else {
      var events := Redelivered(token, note, report, clocks);
      var a := Applied(db.rows[token].business, token, db.rows[token].purchase);
      var db1 := Serve(google, db, events[0]).0;
      RtdnPersists(google, db, token, note, report, clocks[0]);
      assert events[1..] == Redelivered(token, note, report, clocks[1..]);
      LapseAfterLapse(google, db1, token, note, report, clocks[1..]);
      assert [a] + Times(|clocks| - 1, a) == Times(|clocks|, a);
    }
  }

  /** The first delivery is held or applied; every later one is applied. */
  lemma LapseDeliveries(google: Google, db: Db, token: string, note: Option<int>, report: Report, clocks: seq<int>)
    requires Sound(google, db) && report.state.Expired? && token != "" && clocks != []
    requires token in db.rows && db.rows[token].replacedBy.None?
    ensures var lapse := Applied(db.rows[token].business, token, Fetch(google, token, Some(report)).value);
      var held := note != Some(RTDN_REVOKED) && StillPaid(db.rows[token].purchase, clocks[0]);
      ServeAll(google, db, Redelivered(token, note, report, clocks)).log
        == (if held then db.log else db.log + [lapse]) + Times(|clocks| - 1, lapse)
  {
    var events := Redelivered(token, note, report, clocks);
    var db1 := Serve(google, db, events[0]).0;
    RtdnPersists(google, db, token, note, report, clocks[0]);
    assert events[1..] == Redelivered(token, note, report, clocks[1..]);
    LapseAfterLapse(google, db1, token, note, report, clocks[1..]);
  }

  /**
   The hold against at-least-once delivery, every log entry counted. For every stored
   row, every clock and every number of identical deliveries of a lapse: the first is
   held exactly when the row is still paid and the lapse is not a revoke, and every
   later one is applied.
   */
  lemma HoldLastsOneDelivery(google: Google, db: Db, token: string, note: Option<int>, report: Report, clocks: seq<int>)
    requires Sound(google, db) && report.state.Expired? && token != "" && clocks != []
    requires token in db.rows && db.rows[token].replacedBy.None?
    ensures var lapse := Applied(db.rows[token].business, token, Fetch(google, token, Some(report)).value);
      var held := note != Some(RTDN_REVOKED) && StillPaid(db.rows[token].purchase, clocks[0]);
      var log' := ServeAll(google, db, Redelivered(token, note, report, clocks)).log;
      && log' == db.log + Times(if held then |clocks| - 1 else |clocks|, lapse)
      && (log' == db.log <==> held && |clocks| == 1)
  {
    LapseDeliveries(google, db, token, note, report, clocks);
    TimesCons(|clocks|, Applied(db.rows[token].business, token, Fetch(google, token, Some(report)).value), db.log);
  }

  lemma TimesCons(n: nat, a: Applied, log: seq<Applied>)
    requires n > 0
    ensures (log + [a]) + Times(n - 1, a) == log + Times(n, a)
  {
  }

  /** The same deliveries seen by the general condition: held exactly if held once and delivered once. */
  lemma RedeliveryHeld(
    google: Google, business: string, token: string, p: Purchase, note: Option<int>, report: Report, clocks: seq<int>)
    requires report.state.Expired? && token != "" && clocks != []
    ensures AllHeld(google, business, token, p, Redelivered(token, note, report, clocks))
            <==> note != Some(RTDN_REVOKED) && StillPaid(p, clocks[0]) && |clocks| == 1
  {
    var events := Redelivered(token, note, report, clocks);
    var lapse := Fetch(google, token, Some(report)).value;
    assert Reaches(google, business, token, events[0]) && !StillPaid(lapse, if |clocks| > 1 then clocks[1] else 0);
    if |clocks| > 1 {
      assert events[1..][0] == events[1] && Reaches(google, business, token, events[1]);
    } else {
      assert events[1..] == [];
    }
  }
}
