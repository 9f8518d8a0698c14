/**
 The same handlers interleaved: each database read, each write and each call to
 Google is one step, any number of requests are in flight, and any may die.
 */
module PlayMachine {
  import opened Prelude
  import opened PlayDecision
  import opened PlayService

  datatype Pc =
    | Lookup           // the row of the token
    | CallGoogle       // fetchPurchase
    | LookupLinked     // the row of the linked token (an unknown token's notification)
    | ReadPrior
    | Write            // the upsert
    | MarkReplaced     // the supersede update
    | Decide           // decideApply, and apply_play_purchase if it says so
    | Replied(reply: Reply)
    | Dead

  /** A request in flight: the locals of its handler. */
  datatype Handler = Handler(
    e: Event,
    business: string,
    v: Purchase,
    prior: Option<Row>,
    pc: Pc)

  const NO_PURCHASE := Purchase("", "", Unspecified, None, None, None)

  function Receive(e: Event): Handler {
    Handler(e, "", NO_PURCHASE, None,
      if !e.AppVerify? then Lookup
      else if e.business == "" || e.token == "" then Replied(InvalidPayload)
      else if !e.owner then Replied(Forbidden)
      else Lookup)
  }

  /** The purchase is known and the business settled: on to the database. */
  function Proceed(h: Handler, business: string): Handler {
    h.(business := business, pc := ReadPrior)
  }

  /**
   One step. `lost` says that a database read or write fails in it: the two row
   lookups of the handlers do not look at the error and take it for a missing row,
   everything in `persistAndApply` throws.
   */
  function Step(google: Google, db: Db, h: Handler, lost: bool): (Db, Handler) {
    match h.pc
    case Lookup =>
      var known := !lost && h.e.token in db.rows;
      (db, if h.e.AppVerify? && known && db.rows[h.e.token].business != h.e.business
           then h.(pc := Replied(TokenInUse))
           else h.(business := if h.e.AppVerify? then h.e.business
                               else if known then db.rows[h.e.token].business else "",
                   pc := CallGoogle))
    case CallGoogle =>
      (db, match Fetch(google, h.e.token, h.e.report)
           case None => h.(pc := Replied(if h.e.AppVerify? then InvalidPurchase else Ignored))
           case Some(v) =>
             if h.e.AppVerify? then
               if Truthy(v.accountId) && v.accountId != Some(h.business) then h.(pc := Replied(AccountMismatch))
               else Proceed(h.(v := v), h.business)
             else if h.business != "" then Proceed(h.(v := v), h.business)
             else if Truthy(v.linked) then h.(v := v, pc := LookupLinked)
             else h.(pc := Replied(Ignored)))
    case LookupLinked =>
      (db, var linkedBusiness := if !lost && Truthy(h.v.linked) && h.v.linked.value in db.rows
                                 then Some(db.rows[h.v.linked.value].business) else None;
           match BusinessForUnknownToken(h.v.accountId, linkedBusiness)
           case None => h.(pc := Replied(Ignored))
           case Some(b) => Proceed(h, b))
    case Replied(_) => (db, h)
    case Dead => (db, h)
    case _ => if lost then (db, h.(pc := Dead)) else PersistStep(google, db, h)
  }

  /** `persistAndApply`, one database call at a time. */
  function PersistStep(google: Google, db: Db, h: Handler): (Db, Handler) {
    match h.pc
    case ReadPrior => (db, h.(prior := RowOf(db, h.e.token), pc := Write))
    case Write =>
      (Upsert(db, h.business, h.e.token, h.v), h.(pc := if Supersedes(h.e.token, h.v) then MarkReplaced else Decide))
    case MarkReplaced =>
      (if Supersedes(h.e.token, h.v) then Supersede(db, h.business, h.e.token, h.v) else db, h.(pc := Decide))
    case Decide =>
      var decision := DecideApply(h.v, if h.prior.Some? then h.prior.value.replacedBy else None, h.prior, h.e.Note(), h.e.now);
      (if decision.Apply? then LogApply(db, h.business, h.e.token, h.v) else db, h.(pc := Replied(Persisted(decision))))
    case _ => (db, h)
  }

  datatype World = World(db: Db, handlers: seq<Handler>)

  datatype Action = Deliver(e: Event) | Run(i: nat, lost: bool) | Kill(i: nat)

  function Act(google: Google, w: World, a: Action): World {
    match a
    case Deliver(e) => w.(handlers := w.handlers + [Receive(e)])
    case Run(i, lost) =>
      if i < |w.handlers| then
        var (db, h) := Step(google, w.db, w.handlers[i], lost);
        World(db, w.handlers[i := h])
      else w
    case Kill(i) => if i < |w.handlers| then w.(handlers := w.handlers[i := w.handlers[i].(pc := Dead)]) else w
  }

  function Exec(google: Google, w: World, schedule: seq<Action>): World
    decreases |schedule|
  {
    if schedule == [] then w else Exec(google, Act(google, w, schedule[0]), schedule[1..])
  }

  // ---------------------------------------------------------------- alone, the machine is the serial handler

  /** `n` consecutive steps of one handler, nothing failing. */
  function Steps(google: Google, db: Db, h: Handler, n: nat): (Db, Handler)
    decreases n
  {
    if n == 0 then (db, h)
    else var (db', h') := Step(google, db, h, false); Steps(google, db', h', n - 1)
  }

  lemma PersistSteps(google: Google, db: Db, h: Handler)
    requires h.pc.ReadPrior?
    ensures var (db', h') := Steps(google, db, h, 4);
      var (db1, decision) := Persist(db, h.business, h.e.token, h.v, h.e.Note(), h.e.now);
      db' == db1 && h'.pc == Replied(Persisted(decision))
  {
  }

  /** A request served without interruption does what the serial handler does. */
  lemma AloneIsSerial(google: Google, db: Db, e: Event)
    requires Sound(google, db)
    ensures var (db', h') := Steps(google, db, Receive(e), 7);
      var (db1, reply) := Serve(google, db, e);
      db' == db1 && h'.pc == Replied(reply)
  {
    var h0 := Receive(e);
    if h0.pc.Replied? {
      RepliedStays(google, db, h0, 7);
    } else {
      var (_, h1) := Step(google, db, h0, false);
      assert Steps(google, db, h0, 7) == Steps(google, db, h1, 6);
      if h1.pc.Replied? {
        RepliedStays(google, db, h1, 6);
      } else {
        var (_, h2) := Step(google, db, h1, false);
        assert Steps(google, db, h1, 6) == Steps(google, db, h2, 5);
        if h2.pc.Replied? {
          RepliedStays(google, db, h2, 5);
        } else if h2.pc.ReadPrior? {
          PersistSteps(google, db, h2);
          PersistThenStays(google, db, h2);
        } else {
          var (_, h3) := Step(google, db, h2, false);
          assert Steps(google, db, h2, 5) == Steps(google, db, h3, 4);
          if h3.pc.Replied? {
            RepliedStays(google, db, h3, 4);
          } else {
            PersistSteps(google, db, h3);
          }
        }
      }
    }
  }

  lemma PersistThenStays(google: Google, db: Db, h: Handler)
    requires h.pc.ReadPrior?
    ensures Steps(google, db, h, 5) == Steps(google, db, h, 4)
  {
    PersistSteps(google, db, h);
    StepsAppend(google, db, h, 4);
  }

  lemma {:induction false} StepsAppend(google: Google, db: Db, h: Handler, n: nat)
    ensures var (db', h') := Steps(google, db, h, n);
      Steps(google, db, h, n + 1) == Step(google, db', h', false)
    decreases n
  {
    if n > 0 {
      var (db1, h1) := Step(google, db, h, false);
      StepsAppend(google, db1, h1, n - 1);
    }
  }

  lemma {:induction false} RepliedStays(google: Google, db: Db, h: Handler, n: nat)
    requires h.pc.Replied?
    ensures Steps(google, db, h, n) == (db, h)
    decreases n
  {
    if n > 0 {
      RepliedStays(google, db, h, n - 1);
    }
  }

  /**
   A failing call: the two lookups of the handlers go on as if there were no rows,
   everything in `persistAndApply` dies with nothing written, and the call to Google
   is not a database call.
   */
  lemma LostIsMissing(google: Google, db: Db, h: Handler)
    ensures var (db', h') := Step(google, db, h, true);
      && db' == db
      && (h.pc.Lookup? || h.pc.LookupLinked? ==> h' == Step(google, Db(map[], []), h, false).1)
      && (h.pc.ReadPrior? || h.pc.Write? || h.pc.MarkReplaced? || h.pc.Decide? ==> h' == h.(pc := Dead))
      && (h.pc.CallGoogle? ==> h' == Step(google, db, h, false).1)
  {
  }

  // ---------------------------------------------------------------- every interleaving

  /** Who replaced whom is what Play says, and a tagged token belongs to the business it is tagged with. */
  ghost predicate DbOk(google: Google, db: Db) {
    && (forall o :: o in db.rows && db.rows[o].replacedBy.Some? ==>
          var t := db.rows[o].replacedBy.value;
          t in db.rows && t != o && google.link(t) == Some(o))
    && (forall t :: t in db.rows && Truthy(google.tag(t)) ==> Some(db.rows[t].business) == google.tag(t))
  }

  predicate HandlerOk(google: Google, db: Db, h: Handler) {
    match h.pc
    case Lookup => true
    case CallGoogle =>
      h.e.Rtdn? && h.business != "" && Truthy(google.tag(h.e.token)) ==> Some(h.business) == google.tag(h.e.token)
    case LookupLinked => Fetched(google, h)
    case Replied(_) => true
    case Dead => true
    case _ =>
      && Fetched(google, h)
      && (Truthy(google.tag(h.e.token)) ==> Some(h.business) == google.tag(h.e.token))
      && (h.pc.MarkReplaced? ==> h.e.token in db.rows)
  }

  predicate Fetched(google: Google, h: Handler) {
    h.v.linked == google.link(h.e.token) && h.v.accountId == google.tag(h.e.token)
  }

  ghost predicate Inv(google: Google, w: World) {
    DbOk(google, w.db) && forall i :: 0 <= i < |w.handlers| ==> HandlerOk(google, w.db, w.handlers[i])
  }

  /** No row disappears, and `replaced_by_token` is written once. */
  ghost predicate WriteOnce(db: Db, db': Db) {
    forall o :: o in db.rows ==>
      o in db'.rows && (db.rows[o].replacedBy.Some? ==> db'.rows[o].replacedBy == db.rows[o].replacedBy)
  }

  lemma StepKeeps(google: Google, db: Db, h: Handler, lost: bool)
    requires DbOk(google, db) && HandlerOk(google, db, h)
    ensures var (db', h') := Step(google, db, h, lost);
      DbOk(google, db') && HandlerOk(google, db', h') && WriteOnce(db, db')
  {
  }

  lemma ActKeeps(google: Google, w: World, a: Action)
    requires Inv(google, w)
    ensures Inv(google, Act(google, w, a)) && WriteOnce(w.db, Act(google, w, a).db)
  {
    var w' := Act(google, w, a);
    if a.Run? && a.i < |w.handlers| {
      StepKeeps(google, w.db, w.handlers[a.i], a.lost);
      forall i | 0 <= i < |w'.handlers|
        ensures HandlerOk(google, w'.db, w'.handlers[i])
      {
        assert HandlerOk(google, w.db, w.handlers[i]);
      }
    }
  }

  /**
   In every interleaving, failed reads and dead handlers included: a stored token with an account tag belongs to the
   business it is tagged with, `replaced_by_token` never changes once set, and it
   names a stored token that Play links to this one.
   */
  lemma {:induction false} InterleavedRunsKeep(google: Google, w: World, schedule: seq<Action>)
    requires Inv(google, w)
    ensures Inv(google, Exec(google, w, schedule)) && WriteOnce(w.db, Exec(google, w, schedule).db)
    decreases |schedule|
  {
    if schedule != [] {
      ActKeeps(google, w, schedule[0]);
      InterleavedRunsKeep(google, Act(google, w, schedule[0]), schedule[1..]);
    }
  }

  // ---------------------------------------------------------------- replacement chains

  /** Each token of `p` is linked by Play to the one before it. */
  ghost predicate LinkPath(google: Google, p: seq<string>) {
    forall i :: 0 <= i < |p| - 1 ==> google.link(p[i + 1]) == Some(p[i])
  }

  ghost predicate Acyclic(google: Google) {
    forall p: seq<string> :: |p| >= 2 && LinkPath(google, p) ==> p[0] != p[|p| - 1]
  }

  /** `p` follows `replaced_by_token` from its first token. */
  predicate Chain(db: Db, p: seq<string>) {
    && p != []
    && (forall i :: 0 <= i < |p| ==> p[i] in db.rows)
    && (forall i :: 0 <= i < |p| - 1 ==> db.rows[p[i]].replacedBy == Some(p[i + 1]))
  }

  lemma ChainIsLinkPath(google: Google, db: Db, p: seq<string>)
    requires DbOk(google, db) && Chain(db, p)
    ensures LinkPath(google, p)
  {
  }

  lemma SubpathLinks(google: Google, p: seq<string>, from: nat, to: nat)
    requires LinkPath(google, p) && from <= to <= |p|
    ensures LinkPath(google, p[from..to])
  {
  }

  lemma NoRepeat(google: Google, p: seq<string>, i: nat, j: nat)
    requires Acyclic(google) && LinkPath(google, p) && i < j < |p|
    ensures p[i] != p[j]
  {
    SubpathLinks(google, p, i, j + 1);
    var q := p[i..j + 1];
    assert |q| >= 2 && LinkPath(google, q);
    assert q[0] == p[i] && q[|q| - 1] == p[j];
  }

  /** Without a cycle in Play's links no chain meets a token twice. */
  lemma ChainHasNoRepeats(google: Google, db: Db, p: seq<string>)
    requires DbOk(google, db) && Acyclic(google) && Chain(db, p)
    ensures forall i, j :: 0 <= i < j < |p| ==> p[i] != p[j]
  {
    ChainIsLinkPath(google, db, p);
    forall i, j | 0 <= i < j < |p|
      ensures p[i] != p[j]
    {
      NoRepeat(google, p, i, j);
    }
  }

  function Members(p: seq<string>): set<string> { set x | x in p }

  lemma {:induction false} ChainFrom(google: Google, db: Db, p: seq<string>) returns (full: seq<string>)
    requires DbOk(google, db) && Acyclic(google) && Chain(db, p)
    ensures Chain(db, full) && full[0] == p[0]
    ensures db.rows[full[|full| - 1]].replacedBy.None?
    decreases db.rows.Keys - Members(p)
  {
    var last := db.rows[p[|p| - 1]];
    if last.replacedBy.None? {
      full := p;
    } else {
      var longer := p + [last.replacedBy.value];
      assert Chain(db, longer);
      ChainHasNoRepeats(google, db, longer);
      var next := last.replacedBy.value;
      assert next !in Members(p) by {
        forall i | 0 <= i < |p|
          ensures p[i] != next
        {
          assert longer[i] != longer[|p|];
        }
      }
      assert next in Members(longer);
      assert Members(p) <= Members(longer);
      full := ChainFrom(google, db, longer);
    }
  }

  /** Every replacement chain is finite and ends in a token nothing has replaced. */
  lemma ChainsEnd(google: Google, db: Db, o: string)
    requires DbOk(google, db) && Acyclic(google) && o in db.rows
    ensures exists p :: Chain(db, p) && p[0] == o && db.rows[p[|p| - 1]].replacedBy.None?
                        && forall i, j :: 0 <= i < j < |p| ==> p[i] != p[j]
  {
    var p := ChainFrom(google, db, [o]);
    ChainHasNoRepeats(google, db, p);
  }

  // ---------------------------------------------------------------- what interleaving does break

  function Runs(i: nat, n: nat): seq<Action> {
    if n == 0 then [] else [Run(i, false)] + Runs(i, n - 1)
  }

  lemma {:induction false} RunsAreSteps(google: Google, w: World, i: nat, n: nat, rest: seq<Action>)
    requires i < |w.handlers|
    ensures var (db', h') := Steps(google, w.db, w.handlers[i], n);
      Exec(google, w, Runs(i, n) + rest) == Exec(google, World(db', w.handlers[i := h']), rest)
    decreases n
  {
    if n == 0 {
      assert Runs(i, 0) + rest == rest;
      assert w.handlers[i := w.handlers[i]] == w.handlers;
    } else {
      var (db1, h1) := Step(google, w.db, w.handlers[i], false);
      var w' := World(db1, w.handlers[i := h1]);
      assert (Runs(i, n) + rest)[0] == Run(i, false) && (Runs(i, n) + rest)[1..] == Runs(i, n - 1) + rest;
      RunsAreSteps(google, w', i, n - 1, rest);
      var h' := Steps(google, db1, h1, n - 1).1;
      assert w'.handlers[i := h'] == w.handlers[i := h'];
    }
  }

  /** The old token's handler pauses between its read and its decision; the new token's runs in between. */
  function StaleSchedule(e1: Event, e2: Event): seq<Action> {
    [Deliver(e1), Deliver(e2)] + (Runs(0, 4) + (Runs(1, 7) + Runs(0, 1)))
  }

  /**
   The witness that "a replaced token never changes the plan again" fails: from
   every database, a notification of the old token that was read before the new one
   took over is still applied after it, and wins. PlayStale has the exact condition.
   */
  lemma StaleReadAppliesReplaced(google: Google, db: Db, e1: Event, e2: Event)
    requires Sound(google, db) && e1.Rtdn? && e2.Rtdn? && e1.report.Some? && e2.report.Some?
    requires e1.token in db.rows && db.rows[e1.token].replacedBy.None? && e1.token != ""
    requires e2.token !in db.rows && e2.token != "" && google.link(e2.token) == Some(e1.token)
    requires !Truthy(google.link(e1.token)) && !Truthy(google.tag(e2.token))
    requires !e1.report.value.state.Expired? && !e2.report.value.state.Expired? && !IsPending(e2.report.value.state)
    ensures var db' := Exec(google, World(db, []), StaleSchedule(e1, e2)).db;
      var b := db.rows[e1.token].business;
      && e1.token in db'.rows && db'.rows[e1.token].replacedBy == Some(e2.token)
      && db'.log == db.log + [Applied(b, e2.token, Fetch(google, e2.token, e2.report).value),
                              Applied(b, e1.token, Fetch(google, e1.token, e1.report).value)]
  {
    var b, v1 := db.rows[e1.token].business, Fetch(google, e1.token, e1.report).value;
    var stale := Handler(e1, b, v1, Some(db.rows[e1.token]), Decide);
    var db1 := Upsert(db, b, e1.token, v1);
    UpsertKeeps(google, db, b, e1.token, v1);
    StaleHalf(google, db, e1, e2);
    AloneIsSerial(google, db1, e2);
    TakesOver(google, db1, e1.token, e2);
    var (db2, h2) := Steps(google, db1, Receive(e2), 7);
    RunsAreSteps(google, World(db1, [stale, Receive(e2)]), 1, 7, Runs(0, 1));
    assert [stale, Receive(e2)][1 := h2] == [stale, h2];
    assert Runs(0, 1)[1..] == [];
  }

  /** Up to the point where the old token's handler has read and written, and nothing else has happened. */
  lemma StaleHalf(google: Google, db: Db, e1: Event, e2: Event)
    requires e1.Rtdn? && e1.report.Some? && e1.token != "" && e1.token in db.rows
    requires db.rows[e1.token].business != "" && !Truthy(google.link(e1.token))
    ensures var b, v1 := db.rows[e1.token].business, Fetch(google, e1.token, e1.report).value;
      var stale := Handler(e1, b, v1, Some(db.rows[e1.token]), Decide);
      Exec(google, World(db, []), StaleSchedule(e1, e2))
        == Exec(google, World(Upsert(db, b, e1.token, v1), [stale, Receive(e2)]), Runs(1, 7) + Runs(0, 1))
  {
    var b, v1 := db.rows[e1.token].business, Fetch(google, e1.token, e1.report).value;
    var stale := Handler(e1, b, v1, Some(db.rows[e1.token]), Decide);
    var tail := Runs(1, 7) + Runs(0, 1);
    BothDelivered(google, db, e1, e2, Runs(0, 4) + tail);
    ReadsThenWrites(google, db, e1);
    RunsAreSteps(google, World(db, [Receive(e1), Receive(e2)]), 0, 4, tail);
    assert [Receive(e1), Receive(e2)][0 := stale] == [stale, Receive(e2)];
  }

  lemma BothDelivered(google: Google, db: Db, e1: Event, e2: Event, tail: seq<Action>)
    ensures Exec(google, World(db, []), [Deliver(e1), Deliver(e2)] + tail)
         == Exec(google, World(db, [Receive(e1), Receive(e2)]), tail)
  {
    var all := [Deliver(e1), Deliver(e2)] + tail;
    var rest := [Deliver(e2)] + tail;
    assert all[0] == Deliver(e1) && all[1..] == rest;
    assert Act(google, World(db, []), Deliver(e1)) == World(db, [Receive(e1)]);
    assert rest[0] == Deliver(e2) && rest[1..] == tail;
    assert Act(google, World(db, [Receive(e1)]), Deliver(e2)) == World(db, [Receive(e1), Receive(e2)]);
  }

  lemma ReadsThenWrites(google: Google, db: Db, e: Event)
    requires e.Rtdn? && e.report.Some? && e.token != "" && e.token in db.rows
    requires db.rows[e.token].business != "" && !Truthy(google.link(e.token))
    ensures var b, v := db.rows[e.token].business, Fetch(google, e.token, e.report).value;
      Steps(google, db, Receive(e), 4)
        == (Upsert(db, b, e.token, v), Handler(e, b, v, Some(db.rows[e.token]), Decide))
  {
  }

  /** A first, paid report of a token that replaces `o` is applied and marks `o`. */
  lemma TakesOver(google: Google, db: Db, o: string, e: Event)
    requires Sound(google, db) && e.Rtdn? && e.report.Some? && e.token != ""
    requires o in db.rows && db.rows[o].replacedBy.None? && o != ""
    requires e.token !in db.rows && google.link(e.token) == Some(o) && !Truthy(google.tag(e.token))
    requires !e.report.value.state.Expired? && !IsPending(e.report.value.state)
    ensures var db' := Serve(google, db, e).0;
      var b, v := db.rows[o].business, Fetch(google, e.token, e.report).value;
      && o in db'.rows && db'.rows[o] == db.rows[o].(replacedBy := Some(e.token))
      && db'.log == db.log + [Applied(b, e.token, v)]
  {
  }
}
