/**
 What one request does, said by its own words: who is let through, what is stored,
 which other row is marked, when apply_play_purchase is called and what is answered.
 The states are named one by one, as Play names them.
 */
module PlayReports {
  import opened Prelude
  import opened PlayDecision
  import opened PlayService
  import opened PlayHold

  /** The purchase a report describes; link and tag are the token's own. */
  function Bought(google: Google, e: Event): Purchase
    requires e.report.Some?
  {
    var r := e.report.value;
    Purchase(r.productId, r.basePlanId, r.state, r.expiry, google.tag(e.token), google.link(e.token))
  }

  predicate TagAllows(google: Google, token: string, business: string) {
    google.tag(token).None? || google.tag(token) == Some("") || google.tag(token) == Some(business)
  }

  /** An unknown token's event is let through for `business`: by its owner's call, or by the row of the token it replaces. */
  predicate FirstFor(google: Google, db: Db, e: Event, business: string) {
    && e.token != "" && e.token !in db.rows && e.report.Some?
    && business != "" && TagAllows(google, e.token, business)
    && if e.AppVerify? then e.owner && e.business == business
       else exists o :: o in db.rows && o != "" && google.link(e.token) == Some(o) && db.rows[o].business == business
  }

  /** For an unknown token the handlers settle on exactly this business. */
  lemma UnknownAdmits(google: Google, db: Db, e: Event, business: string)
    requires Sound(google, db) && e.token !in db.rows
    ensures Admit(google, db, e).0 == Some(business) <==> FirstFor(google, db, e, business)
  {
  }

  /** The first report of a token is stored and applied, whatever its state, its link, the notification and the clock. */
  lemma FirstReport(google: Google, db: Db, e: Event, business: string)
    requires Sound(google, db) && FirstFor(google, db, e, business)
    ensures var (db', reply) := Serve(google, db, e);
      && e.token in db'.rows && db'.rows[e.token] == Row(business, Bought(google, e), None)
      && db'.log == db.log + [Applied(business, e.token, Bought(google, e))]
      && reply == Persisted(Apply)
  {
    UnknownAdmits(google, db, e, business);
  }

  /** In particular a shop's first purchase: its owner's call for an unlinked token with its own tag or none. */
  lemma FirstPurchase(google: Google, db: Db, business: string, token: string, report: Report, now: int)
    requires Sound(google, db) && business != "" && token != "" && token !in db.rows
    requires google.link(token).None? && google.tag(token) in {None, Some(business)}
    ensures var e := AppVerify(business, token, true, Some(report), now);
      var v := Purchase(report.productId, report.basePlanId, report.state, report.expiry, google.tag(token), None);
      Serve(google, db, e)
        == (Db(db.rows[token := Row(business, v, None)], db.log + [Applied(business, token, v)]), Persisted(Apply))
  {
    FirstReport(google, db, AppVerify(business, token, true, Some(report), now), business);
  }

  /** An unknown token's event that is let through for nobody changes nothing. */
  lemma FirstRefused(google: Google, db: Db, e: Event)
    requires Sound(google, db) && e.token !in db.rows && forall business :: !FirstFor(google, db, e, business)
    ensures Serve(google, db, e).0 == db
  {
    if Admit(google, db, e).0.Some? {
      UnknownAdmits(google, db, e, Admit(google, db, e).0.value);
    }
  }

  /** The stored report keeps a lapse from the plan: one of three states, paid beyond now, and no revoke. */
  predicate HeldByState(p: Purchase, note: Option<int>, now: int) {
    && (p.state == Active || p.state == InGracePeriod || p.state == Canceled)
    && p.expiry.Some? && p.expiry.value > now
    && note != Some(12)
  }

  /** What happens to a known token's own row, and to the plan. */
  lemma KnownReport(google: Google, db: Db, e: Event)
    requires Sound(google, db) && e.token in db.rows
    ensures var row, (db', reply) := db.rows[e.token], Serve(google, db, e);
      if !Reaches(google, row.business, e.token, e) then db' == db
      else
        var v := Bought(google, e);
        && e.token in db'.rows && db'.rows[e.token] == row.(purchase := v)
        && if row.replacedBy.Some? then db'.log == db.log && reply == Persisted(Replaced)
           else if v.state == Expired && HeldByState(row.purchase, e.Note(), e.now)
           then db'.log == db.log && reply == Persisted(EarlyLapseHeld)
           else db'.log == db.log + [Applied(row.business, e.token, v)] && reply == Persisted(Apply)
  {
    AdmitsExactly(google, db, e);
  }

  /** The hold of PlayHold and PlaySwitch, state by state. */
  lemma HeldExactlyByState(p: Purchase, e: Event)
    ensures Held(p, e) <==> HeldByState(p, e.Note(), e.now)
  {
  }

  /** The event acts for `business`. */
  predicate ActsFor(google: Google, db: Db, e: Event, business: string) {
    if e.token in db.rows then business == db.rows[e.token].business && Reaches(google, business, e.token, e)
    else FirstFor(google, db, e, business)
  }

  /** The states past the payment: all but PENDING and PENDING_PURCHASE_CANCELED. */
  predicate PastPayment(state: PlayState) {
    state in {Active, Paused, InGracePeriod, OnHold, Canceled, Expired, Unspecified}
  }

  /** The event marks row `o`: it reports, past the payment, the token that replaces `o`, for the business of `o`. */
  predicate Marks(google: Google, db: Db, e: Event, business: string, o: string) {
    && o != "" && o != e.token && google.link(e.token) == Some(o)
    && e.report.Some? && PastPayment(e.report.value.state)
    && o in db.rows && db.rows[o].business == business && db.rows[o].replacedBy.None?
  }

  lemma ActsIsAdmitted(google: Google, db: Db, e: Event, business: string)
    requires Sound(google, db)
    ensures Admit(google, db, e).0 == Some(business) <==> ActsFor(google, db, e, business)
  {
    if e.token in db.rows {
      AdmitsExactly(google, db, e);
    } else {
      UnknownAdmits(google, db, e, business);
    }
  }

  /** Persisting a purchase touches no other row but the one it replaces. */
  lemma PersistOthers(db: Db, business: string, token: string, v: Purchase, note: Option<int>, now: int, o: string)
    requires o != token
    ensures var db' := Persist(db, business, token, v, note, now).0;
      var marked := && o != "" && v.linked == Some(o) && PastPayment(v.state)
                    && o in db.rows && db.rows[o].business == business && db.rows[o].replacedBy.None?;
      RowOf(db', o) == if marked then Some(db.rows[o].(replacedBy := Some(token))) else RowOf(db, o)
  {
  }

  /** Every other row stays as it is, but for the mark on the row the token replaces. */
  lemma OtherRowsExactly(google: Google, db: Db, e: Event, business: string, o: string)
    requires Sound(google, db) && ActsFor(google, db, e, business) && o != e.token
    ensures RowOf(Serve(google, db, e).0, o)
         == if Marks(google, db, e, business, o) then Some(db.rows[o].(replacedBy := Some(e.token))) else RowOf(db, o)
  {
    ActsIsAdmitted(google, db, e, business);
    PersistOthers(db, business, e.token, Bought(google, e), e.Note(), e.now, o);
  }

  // ---------------------------------------------------------------- the answers

  /** An app's call is turned away for the first of five reasons that holds, and only then. */
  lemma AppVerifyAnswers(google: Google, db: Db, e: Event)
    requires e.AppVerify?
    ensures var reply := Serve(google, db, e).1;
      var badPayload := e.business == "" || e.token == "";
      var taken := e.token in db.rows && db.rows[e.token].business != e.business;
      var unknown := e.report.None?;
      var foreign := !TagAllows(google, e.token, e.business);
      && (reply == InvalidPayload <==> badPayload)
      && (reply == Forbidden <==> !badPayload && !e.owner)
      && (reply == TokenInUse <==> !badPayload && e.owner && taken)
      && (reply == InvalidPurchase <==> !badPayload && e.owner && !taken && unknown)
      && (reply == AccountMismatch <==> !badPayload && e.owner && !taken && !unknown && foreign)
      && (reply.Persisted? <==> !badPayload && e.owner && !taken && !unknown && !foreign)
      && (!reply.Persisted? ==> Serve(google, db, e).0 == db)
  {
  }

  /** A notification is ignored exactly if it acts for nobody, and then it changes nothing. */
  lemma RtdnAnswers(google: Google, db: Db, e: Event)
    requires Sound(google, db) && e.Rtdn?
    ensures Serve(google, db, e).1 == Ignored <==> forall business :: !ActsFor(google, db, e, business)
    ensures Serve(google, db, e).1 == Ignored ==> Serve(google, db, e).0 == db
  {
    if Admit(google, db, e).0.Some? {
      AdmitBinds(google, db, e);
      ActsIsAdmitted(google, db, e, Admit(google, db, e).0.value);
    } else if business :| ActsFor(google, db, e, business) {
      ActsIsAdmitted(google, db, e, business);
    }
  }
}
