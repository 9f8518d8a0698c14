/**
 play.ts: the pure decisions about a Google Play purchase, and the three database
 operations `persistAndApply` is made of.
 */
module PlayDecision {
  import opened Prelude

  datatype PlayState =
    | Pending | Active | Paused | InGracePeriod | OnHold | Canceled | Expired | PendingPurchaseCanceled | Unspecified

  /** A verified purchase. Expiry is in milliseconds; None when missing or not a date. */
  datatype Purchase = Purchase(
    productId: string,
    basePlanId: string,
    state: PlayState,
    expiry: Option<int>,
    accountId: Option<string>,    // obfuscatedAccountId: the business the app tagged the purchase with
    linked: Option<string>)       // linkedPurchaseToken

  /** A row of play_subscription_purchases, keyed by its purchase token. */
  datatype Row = Row(business: string, purchase: Purchase, replacedBy: Option<string>)

  /** One call of apply_play_purchase; its SQL is not part of this model. */
  datatype Applied = Applied(business: string, token: string, purchase: Purchase)

  datatype Db = Db(rows: map<string, Row>, log: seq<Applied>)

  /** JavaScript's reading of a nullable string as a condition. */
  predicate Truthy(s: Option<string>) { s.Some? && s.value != "" }

  predicate IsEntitled(state: PlayState, expiry: Option<int>, now: int) {
    state.Active? || state.InGracePeriod? || (state.Canceled? && expiry.Some? && expiry.value > now)
  }

  const RTDN_REVOKED := 12

  datatype Decision = Apply | Replaced | EarlyLapseHeld

  /** The stored row still entitles, with time left that was paid for. */
  predicate StillPaid(p: Purchase, now: int) {
    p.expiry.Some? && p.expiry.value > now && IsEntitled(p.state, p.expiry, now)
  }

  function DecideApply(v: Purchase, replacedBy: Option<string>, prior: Option<Row>, note: Option<int>, now: int): Decision {
    if Truthy(replacedBy) then Replaced
    else if v.state.Expired? && note != Some(RTDN_REVOKED) && prior.Some? && StillPaid(prior.value.purchase, now)
    then EarlyLapseHeld
    else Apply
  }

  /** The older token a purchase replaces, never itself. */
  function ReplacedToken(token: string, v: Purchase): Option<string> {
    if Truthy(v.linked) && v.linked.value != token then v.linked else None
  }

  function BusinessForUnknownToken(accountId: Option<string>, linkedBusiness: Option<string>): Option<string> {
    if !Truthy(linkedBusiness) then None
    else if Truthy(accountId) && accountId != linkedBusiness then None
    else linkedBusiness
  }

  predicate IsPending(state: PlayState) { state.Pending? || state.PendingPurchaseCanceled? }

  // ---------------------------------------------------------------- database operations

  function RowOf(db: Db, token: string): Option<Row> {
    if token in db.rows then Some(db.rows[token]) else None
  }

  /** Upsert on the token. `replaced_by_token` is not among the columns written. */
  function Upsert(db: Db, business: string, token: string, v: Purchase): Db {
    var replacedBy := if token in db.rows then db.rows[token].replacedBy else None;
    db.(rows := db.rows[token := Row(business, v, replacedBy)])
  }

  /** Mark the replaced token, if the purchase names one and is past its payment. */
  predicate Supersedes(token: string, v: Purchase) {
    ReplacedToken(token, v).Some? && !IsPending(v.state)
  }

  function Supersede(db: Db, business: string, token: string, v: Purchase): Db
    requires Supersedes(token, v)
  {
    var o := ReplacedToken(token, v).value;
    if o in db.rows && db.rows[o].business == business && db.rows[o].replacedBy.None?
    then db.(rows := db.rows[o := db.rows[o].(replacedBy := Some(token))])
    else db
  }

  function LogApply(db: Db, business: string, token: string, v: Purchase): Db {
    db.(log := db.log + [Applied(business, token, v)])
  }

  // ---------------------------------------------------------------- Google

  /** What Play keeps constant per token: the token it replaces and the account tag. */
  datatype Google = Google(link: string -> Option<string>, tag: string -> Option<string>)

  /** What may differ from one fetch of a token to the next. */
  datatype Report = Report(productId: string, basePlanId: string, state: PlayState, expiry: Option<int>)

  /** `fetchPurchase` and its parse; nothing is sold under the empty token. */
  function Fetch(google: Google, token: string, report: Option<Report>): Option<Purchase> {
    if token == "" || report.None? then None
    else
      Some(Purchase(report.value.productId, report.value.basePlanId, report.value.state, report.value.expiry,
                    google.tag(token), google.link(token)))
  }

  /** What a handler answers. `Persisted` carries the decision of `decideApply`. */
  datatype Reply =
    | InvalidPayload | Forbidden | TokenInUse | InvalidPurchase | AccountMismatch
    | Ignored
    | Persisted(decision: Decision)

  /** One request: an app's verify call or a Play notification. */
  datatype Event =
    | AppVerify(business: string, token: string, owner: bool, report: Option<Report>, now: int)
    | Rtdn(token: string, notificationType: Option<int>, report: Option<Report>, now: int)
  {
    function Note(): Option<int> { if Rtdn? then notificationType else None }
  }
}
