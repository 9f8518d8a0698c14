/**
 A plan switch: token `next` replaces token `old` of the same business. The old
 token's lapse may arrive before the new token is known; it must not take the
 plan away, and once the new token is known the old one must be silent.
 */
module PlaySwitch {
  import opened Prelude
  import opened PlayDecision
  import opened PlayService
  import opened PlayHold

  datatype Switch = Switch(old_: string, next: string, business: string)

  ghost predicate IsSwitch(google: Google, w: Switch) {
    && w.next != w.old_ && w.next != "" && w.old_ != "" && w.business != ""
    && google.link(w.next) == Some(w.old_)
    && (Truthy(google.tag(w.next)) ==> google.tag(w.next) == Some(w.business))
  }

  /** App calls for the new token name the switching business, unless its account tag refuses everybody else anyway. */
  predicate OwnCall(google: Google, w: Switch, e: Event) {
    e.AppVerify? && e.token == w.next ==> e.business == w.business || Truthy(google.tag(w.next))
  }

  /** A report of the new token past its payment, from its own app or from Play. */
  predicate Takeover(w: Switch, e: Event) {
    && e.token == w.next && (e.AppVerify? ==> e.owner && e.business == w.business)
    && e.report.Some? && !IsPending(e.report.value.state)
  }

  /** The old token is bound to the business; so is the new one if it is known already. */
  predicate Bound(db: Db, w: Switch) {
    && w.old_ in db.rows && db.rows[w.old_].business == w.business
    && (w.next in db.rows ==> db.rows[w.next].business == w.business)
  }

  predicate Settled(db: Db, w: Switch) {
    w.old_ in db.rows && db.rows[w.old_].replacedBy.Some?
  }

  ghost predicate OldSilent(db: Db, w: Switch, from: nat) {
    forall k :: from <= k < |db.log| ==> db.log[k].token != w.old_
  }

  // ---------------------------------------------------------------- one event

  /** The first request for the new token that is let through acts for the switching business. */
  lemma FirstAdmitted(google: Google, db: Db, e: Event, w: Switch)
    requires Sound(google, db) && IsSwitch(google, w) && Bound(db, w) && OwnCall(google, w, e)
    requires e.token == w.next && w.next !in db.rows && Admit(google, db, e).0.Some?
    ensures Admit(google, db, e).0 == Some(w.business)
  {
  }

  lemma ServeKeepsBound(google: Google, db: Db, e: Event, w: Switch)
    requires Sound(google, db) && IsSwitch(google, w) && Bound(db, w) && OwnCall(google, w, e)
    ensures Bound(Serve(google, db, e).0, w) && Sound(google, Serve(google, db, e).0)
  {
    ServeKeeps(google, db, e);
    if w.next !in db.rows && e.token == w.next && Admit(google, db, e).0.Some? {
      FirstAdmitted(google, db, e, w);
    }
  }

  /** A lapse of the unreplaced old token is kept from the plan exactly if it is held. */
  lemma LapseStep(google: Google, db: Db, e: Event, w: Switch)
    requires Sound(google, db) && IsSwitch(google, w) && Bound(db, w) && db.rows[w.old_].replacedBy.None?
    requires Reaches(google, w.business, w.old_, e) && e.report.value.state.Expired?
    ensures Serve(google, db, e).0.log == db.log <==> Held(db.rows[w.old_].purchase, e)
  {
    OwnEvent(google, db, e, w.old_);
  }

  /** The new token is itself unreplaced and not reported as lapsed. */
  predicate TakesEffect(db: Db, w: Switch, e: Event) {
    && (w.next in db.rows ==> db.rows[w.next].replacedBy.None?)
    && e.report.Some? && !e.report.value.state.Expired?
  }

  function NewPlan(google: Google, w: Switch, e: Event): Applied
    requires e.token != "" && e.report.Some?
  {
    Applied(w.business, e.token, Fetch(google, e.token, e.report).value)
  }

  /** The takeover marks the old token as replaced. */
  lemma TakeoverStep(google: Google, db: Db, e: Event, w: Switch)
    requires Sound(google, db) && IsSwitch(google, w) && Bound(db, w) && Takeover(w, e)
    ensures Settled(Serve(google, db, e).0, w)
    ensures OldSilent(Serve(google, db, e).0, w, |db.log|)
    ensures TakesEffect(db, w, e) ==> Serve(google, db, e).0.log == db.log + [NewPlan(google, w, e)]
  {
    ServeKeeps(google, db, e);
    OtherEvent(google, db, e, w.old_);
    assert Admit(google, db, e).0 == Some(w.business);
    var v := Fetch(google, e.token, e.report).value;
    assert Supersedes(e.token, v);
    var db1 := Upsert(db, w.business, w.next, v);
    assert Settled(Supersede(db1, w.business, w.next, v), w);
  }

  // ---------------------------------------------------------------- whole histories

  lemma {:induction false} BoundRun(google: Google, db: Db, events: seq<Event>, w: Switch)
    requires Sound(google, db) && IsSwitch(google, w) && Bound(db, w)
    requires forall e :: e in events ==> OwnCall(google, w, e)
    ensures Bound(ServeAll(google, db, events), w)
    decreases |events|
  {
    if events != [] {
      assert events[0] in events;
      ServeKeepsBound(google, db, events[0], w);
      BoundRun(google, Serve(google, db, events[0]).0, events[1..], w);
    }
  }

  /** From a takeover on the old token is silent, whatever comes after it. */
  lemma TakeoverSilences(google: Google, db: Db, w: Switch, takeover: Event, after: seq<Event>)
    requires Sound(google, db) && IsSwitch(google, w) && Bound(db, w) && Takeover(w, takeover)
    ensures var end := ServeAll(google, db, [takeover] + after);
      && db.log <= end.log && OldSilent(end, w, |db.log|)
      && (TakesEffect(db, w, takeover) ==> db.log + [NewPlan(google, w, takeover)] <= end.log)
  {
    assert ([takeover] + after)[1..] == after;
    var db1, end := Serve(google, db, takeover).0, ServeAll(google, db, [takeover] + after);
    TakeoverStep(google, db, takeover, w);
    ServeKeeps(google, db, takeover);
    SerialRunsKeep(google, db1, after);
    forall k | |db.log| <= k < |end.log|
      ensures end.log[k].token != w.old_
    {
      assert k < |db1.log| ==> end.log[k] == db1.log[k];
    }
  }

  /**
   The switch. Whatever is served before the new token takes over, and whatever comes
   after it: from the takeover on nothing of the old token is applied, the takeover
   itself puts the new plan in force, and no lapse of the old token is ever applied
   if and only if each one before the takeover is no revoke and finds the old token's
   previous report still paid.
   */
  lemma SwitchKeepsPlan(google: Google, db: Db, w: Switch, before: seq<Event>, takeover: Event, after: seq<Event>)
    requires Sound(google, db) && IsSwitch(google, w) && Bound(db, w) && db.rows[w.old_].replacedBy.None?
    requires forall e :: e in before ==> OwnCall(google, w, e) && !MayReplace(google, w.business, w.old_, e)
    requires Takeover(w, takeover)
    ensures var mid := ServeAll(google, db, before);
      var end := ServeAll(google, db, before + ([takeover] + after));
      && db.log <= mid.log <= end.log
      && OldSilent(end, w, |mid.log|)
      && (LapseFree(end.log, |db.log|, w.old_)
          <==> AllHeld(google, w.business, w.old_, db.rows[w.old_].purchase, before))
      && (TakesEffect(mid, w, takeover) ==> mid.log + [NewPlan(google, w, takeover)] <= end.log)
  {
    var mid := ServeAll(google, db, before);
    ServeAllConcat(google, db, before, [takeover] + after);
    SerialRunsKeep(google, db, before);
    BoundRun(google, db, before, w);
    TakeoverSilences(google, mid, w, takeover, after);
    HeldExactlyWhen(google, db, w.old_, before);
    LapseFreeSplit(db.log, mid.log, ServeAll(google, mid, [takeover] + after).log, w.old_);
  }
}
