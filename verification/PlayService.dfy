/**
 index.ts: the two handlers and `persistAndApply`, as they run when nothing else
 does: as functions of the database, and as the code that updates it in place.
 */
module PlayService {
  import opened Prelude
  import opened PlayDecision

  function Persist(db: Db, business: string, token: string, v: Purchase, note: Option<int>, now: int): (Db, Decision) {
    var prior := RowOf(db, token);
    var db1 := Upsert(db, business, token, v);
    var db2 := if Supersedes(token, v) then Supersede(db1, business, token, v) else db1;
    var decision := DecideApply(v, if prior.Some? then prior.value.replacedBy else None, prior, note, now);
    (if decision.Apply? then LogApply(db2, business, token, v) else db2, decision)
  }

  /** The business a request would act for, or the reason it is turned away. */
  function Admit(google: Google, db: Db, e: Event): (Option<string>, Reply) {
    var got := Fetch(google, e.token, e.report);
    match e
    case AppVerify(business, token, owner, _, _) =>
      if business == "" || token == "" then (None, InvalidPayload)
      else if !owner then (None, Forbidden)
      else if token in db.rows && db.rows[token].business != business then (None, TokenInUse)
      else if got.None? then (None, InvalidPurchase)
      else if Truthy(got.value.accountId) && got.value.accountId != Some(business) then (None, AccountMismatch)
      else (Some(business), Ignored)
    case Rtdn(token, _, _, _) =>
      if got.None? then (None, Ignored)
      else if token in db.rows && db.rows[token].business != "" then (Some(db.rows[token].business), Ignored)
      else
        var linked := got.value.linked;
        var linkedBusiness := if Truthy(linked) && linked.value in db.rows then Some(db.rows[linked.value].business) else None;
        (BusinessForUnknownToken(got.value.accountId, linkedBusiness), Ignored)
  }

  function Serve(google: Google, db: Db, e: Event): (Db, Reply) {
    var (business, refusal) := Admit(google, db, e);
    match business
    case None => (db, refusal)
    case Some(b) =>
      var got := Fetch(google, e.token, e.report);
      if got.None? then (db, Ignored)
      else
        var (db', decision) := Persist(db, b, e.token, got.value, e.Note(), e.now);
        (db', Persisted(decision))
  }

  function ServeAll(google: Google, db: Db, events: seq<Event>): Db
    decreases |events|
  {
    if events == [] then db else ServeAll(google, Serve(google, db, events[0]).0, events[1..])
  }

  lemma {:induction false} ServeAllConcat(google: Google, db: Db, a: seq<Event>, b: seq<Event>)
    ensures ServeAll(google, db, a + b) == ServeAll(google, ServeAll(google, db, a), b)
    decreases |a|
  {
    if a == [] {
      assert a + b == b;
    } else {
      assert (a + b)[1..] == a[1..] + b;
      ServeAllConcat(google, Serve(google, db, a[0]).0, a[1..], b);
    }
  }

  class Service {
    var rows: map<string, Row>
    var log: seq<Applied>

    constructor (db: Db)
      ensures Contents() == db
    {
      rows, log := db.rows, db.log;
    }

    function Contents(): Db
      reads this
    {
      Db(rows, log)
    }

    /** For a purchase of `token` fetched from Google and the business it is bound to, if any, nothing kept is lost. */
    method PersistAndApply(ghost google: Google, business: string, token: string, v: Purchase, note: Option<int>, now: int)
      returns (decision: Decision)
      modifies this
      ensures (Contents(), decision) == Persist(old(Contents()), business, token, v, note, now)
      ensures Sound(google, old(Contents())) && business != "" && token != "" && v.linked == google.link(token)
              && (token in old(rows) ==> old(rows[token].business) == business) ==>
                Sound(google, Contents()) && Keeps(old(Contents()), Contents())
    {
      ghost var db := Contents();
      var prior := if token in rows then Some(rows[token]) else None;
      rows := rows[token := Row(business, v, if prior.Some? then prior.value.replacedBy else None)];
      var replaced := ReplacedToken(token, v);
      if replaced.Some? && v.state != Pending && v.state != PendingPurchaseCanceled {
        var o := replaced.value;
        if o in rows && rows[o].business == business && rows[o].replacedBy == None {
          rows := rows[o := rows[o].(replacedBy := Some(token))];
        }
      }
      decision := DecideApply(v, if prior.Some? then prior.value.replacedBy else None, prior, note, now);
      if decision.Apply? {
        log := log + [Applied(business, token, v)];
      }
      assert (Contents(), decision) == Persist(db, business, token, v, note, now);
      if Sound(google, db) && business != "" && token != "" && v.linked == google.link(token)
         && (token in db.rows ==> db.rows[token].business == business) {
        PersistKeeps(google, db, business, token, v, note, now);
      }
    }

    method HandleAppVerify(google: Google, e: Event) returns (reply: Reply)
      requires e.AppVerify?
      modifies this
      ensures (Contents(), reply) == Serve(google, old(Contents()), e)
      ensures Sound(google, old(Contents())) ==> Sound(google, Contents()) && Keeps(old(Contents()), Contents())
    {
      if Sound(google, Contents()) { ServeKeeps(google, Contents(), e); }
      if e.business == "" || e.token == "" { return InvalidPayload; }
      if !e.owner { return Forbidden; }
      if e.token in rows && rows[e.token].business != e.business { return TokenInUse; }
      var got := Fetch(google, e.token, e.report);
      if got.None? { return InvalidPurchase; }
      if Truthy(got.value.accountId) && got.value.accountId != Some(e.business) { return AccountMismatch; }
      var decision := PersistAndApply(google, e.business, e.token, got.value, None, e.now);
      return Persisted(decision);
    }

    method HandleRtdn(google: Google, e: Event) returns (reply: Reply)
      requires e.Rtdn?
      modifies this
      ensures (Contents(), reply) == Serve(google, old(Contents()), e)
      ensures Sound(google, old(Contents())) ==> Sound(google, Contents()) && Keeps(old(Contents()), Contents())
    {
      if Sound(google, Contents()) { ServeKeeps(google, Contents(), e); }
      var business := if e.token in rows then Some(rows[e.token].business) else None;
      var got := Fetch(google, e.token, e.report);
      if got.None? { return Ignored; }
      if !Truthy(business) {
        var linked := got.value.linked;
        var linkedBusiness := if Truthy(linked) && linked.value in rows then Some(rows[linked.value].business) else None;
        business := BusinessForUnknownToken(got.value.accountId, linkedBusiness);
        if !Truthy(business) { return Ignored; }
      }
      var decision := PersistAndApply(google, business.value, e.token, got.value, e.notificationType, e.now);
      return Persisted(decision);
    }
  }

  // ---------------------------------------------------------------- what every serial run keeps

  /** Business ids are never empty; a replaced token and its replacement share one. */
  ghost predicate Sound(google: Google, db: Db) {
    && (forall t :: t in db.rows ==> db.rows[t].business != "")
    && (forall o :: o in db.rows && db.rows[o].replacedBy.Some? ==>
          var t := db.rows[o].replacedBy.value;
          && t != "" && t != o && google.link(t) == Some(o)
          && t in db.rows && db.rows[t].business == db.rows[o].business)
  }

  /** `db'` keeps what may never change again: rows, their business, and who replaced them. */
  ghost predicate Keeps(db: Db, db': Db) {
    && (forall t :: t in db.rows ==>
          && t in db'.rows
          && db'.rows[t].business == db.rows[t].business
          && (db.rows[t].replacedBy.Some? ==> db'.rows[t].replacedBy == db.rows[t].replacedBy))
    && db.log <= db'.log
    && (forall k :: |db.log| <= k < |db'.log| ==>
          db'.log[k].token in db.rows ==> db.rows[db'.log[k].token].replacedBy.None?)
  }

  /** Only the business a token is bound to is ever admitted for it, and only with a purchase in hand. */
  lemma AdmitBinds(google: Google, db: Db, e: Event)
    requires Sound(google, db) && Admit(google, db, e).0.Some?
    ensures var b := Admit(google, db, e).0.value;
      && b != "" && e.token != ""
      && Fetch(google, e.token, e.report).Some?
      && (e.token in db.rows ==> db.rows[e.token].business == b)
  {
  }

  lemma UpsertKeeps(google: Google, db: Db, business: string, token: string, v: Purchase)
    requires Sound(google, db) && business != ""
    requires token in db.rows ==> db.rows[token].business == business
    ensures Sound(google, Upsert(db, business, token, v)) && Keeps(db, Upsert(db, business, token, v))
  {
  }

  lemma SupersedeKeeps(google: Google, db: Db, business: string, token: string, v: Purchase)
    requires Sound(google, db) && token != "" && v.linked == google.link(token) && Supersedes(token, v)
    requires token in db.rows && db.rows[token].business == business
    ensures Sound(google, Supersede(db, business, token, v)) && Keeps(db, Supersede(db, business, token, v))
  {
  }

  lemma PersistKeeps(google: Google, db: Db, business: string, token: string, v: Purchase, note: Option<int>, now: int)
    requires Sound(google, db) && business != "" && token != "" && v.linked == google.link(token)
    requires token in db.rows ==> db.rows[token].business == business
    ensures var db' := Persist(db, business, token, v, note, now).0;
      Sound(google, db') && Keeps(db, db')
  {
    var db1 := Upsert(db, business, token, v);
    UpsertKeeps(google, db, business, token, v);
    if Supersedes(token, v) {
      SupersedeKeeps(google, db1, business, token, v);
    }
  }

  lemma ServeKeeps(google: Google, db: Db, e: Event)
    requires Sound(google, db)
    ensures Sound(google, Serve(google, db, e).0) && Keeps(db, Serve(google, db, e).0)
  {
    if Admit(google, db, e).0.Some? {
      AdmitBinds(google, db, e);
      PersistKeeps(google, db, Admit(google, db, e).0.value, e.token, Fetch(google, e.token, e.report).value, e.Note(), e.now);
    }
  }

  /**
   Serial runs: a bound token never changes business, `replaced_by_token` is
   written once, a replaced token and its replacement share a business, and a
   replaced token is never applied again.
   */
  lemma {:induction false} SerialRunsKeep(google: Google, db: Db, events: seq<Event>)
    requires Sound(google, db)
    ensures Sound(google, ServeAll(google, db, events)) && Keeps(db, ServeAll(google, db, events))
    decreases |events|
  {
    if events != [] {
      ServeKeeps(google, db, events[0]);
      var db1 := Serve(google, db, events[0]).0;
      SerialRunsKeep(google, db1, events[1..]);
      KeepsTransitive(db, db1, ServeAll(google, db1, events[1..]));
    }
  }

  lemma KeepsTransitive(a: Db, b: Db, c: Db)
    requires Keeps(a, b) && Keeps(b, c)
    ensures Keeps(a, c)
  {
  }
}
