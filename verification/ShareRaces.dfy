/**
 The shared photo protocol under arbitrary interleaving: any number of runs on
 any barcodes, crashes anywhere and a source bucket that changes freely. Two
 assumptions: at the start no object of a barcode without a row is blocked, and a
 hash is only added to the block list at a moment when that is safe. A block list
 that stays fixed is the special case.
 */
module ShareRaces {
  import opened Prelude
  import opened SharePhoto
  import opened ShareMachine

  function HashAt(platform: Platform, s: Store, path: string): string
    requires path in s.bucket
  {
    platform.sha256Hex(s.bucket[path].bytes)
  }

  /** Every row names an object of its barcode that is there and has the row's hash. */
  ghost predicate RowsAgree(platform: Platform, s: Store) {
    forall g :: g in s.rows ==>
      var row := s.rows[g];
      && row.gtin14 == g
      && GtinOf(row.objectPath) == g
      && row.objectPath in s.bucket
      && HashAt(platform, s, row.objectPath) == row.sha256
  }

  ghost predicate NoBlockedOrphan(platform: Platform, s: Store) {
    forall p :: p in s.bucket && IsSharedName(p) && GtinOf(p) !in s.rows ==> HashAt(platform, s, p) !in s.blocked
  }

  /** The object at `p` is, or may still become, the one its barcode's row names. */
  predicate Live(s: Store, p: string) {
    GtinOf(p) in s.rows ==> s.rows[GtinOf(p)].objectPath == p
  }

  ghost predicate PresentWhileLive(s: Store, p: string) {
    Live(s, p) ==> p in s.bucket
  }

  ghost predicate HoldsWhileLive(platform: Platform, s: Store, p: string, h: string) {
    Live(s, p) ==> p in s.bucket && HashAt(platform, s, p) == h
  }

  // ---------------------------------------------------------------- invariant

  /** The run has a hashed photo and a name for it. */
  ghost predicate Armed(platform: Platform, r: Run) {
    r.objectPath != "" && Hashed(platform, r)
  }

  ghost predicate OutcomeOk(s: Store, r: Run, o: ShareOutcome) {
    && (o.status.AlreadyShared? ==> r.gtin14 in s.rows)
    && (o.status.Shared? ==>
          && r.gtin14 in s.rows
          && s.rows[r.gtin14].objectPath == r.objectPath
          && o.sha256 == Some(s.rows[r.gtin14].sha256))
  }

  /** What a run knows at each program counter, whatever the other runs do. */
  ghost predicate RunOk(platform: Platform, s: Store, r: Run) {
    && IsGtin14(r.gtin14)
    && OwnName(r)
    && match r.pc
       case CheckRow => true
       case ReadSource => true
       case CheckBlock => Hashed(platform, r)
       case Upload =>
         && Armed(platform, r)
         && (r.gtin14 !in s.rows && r.objectPath !in s.bucket ==> r.sha256 !in s.blocked)
       case Recheck => Armed(platform, r) && PresentWhileLive(s, r.objectPath)
       case ReadOrphan =>
         && Armed(platform, r)
         && (Live(s, r.objectPath) ==> r.objectPath in s.bucket && HashAt(platform, s, r.objectPath) !in s.blocked)
       case CheckOrphan =>
         && Armed(platform, r)
         && HoldsWhileLive(platform, s, r.objectPath, r.orphanSha)
         && (Live(s, r.objectPath) ==> r.orphanSha !in s.blocked)
       case InsertOrphan => Armed(platform, r) && HoldsWhileLive(platform, s, r.objectPath, r.orphanSha)
       case RemoveOrphan => Armed(platform, r) && !Live(s, r.objectPath)
       case Retry => Armed(platform, r) && r.gtin14 in s.rows
       case InsertOwn => Armed(platform, r) && HoldsWhileLive(platform, s, r.objectPath, r.sha256)
       case CheckOwn =>
         && Armed(platform, r)
         && r.gtin14 in s.rows
         && HoldsWhileLive(platform, s, r.objectPath, r.sha256)
       case RemoveOwn => Armed(platform, r) && !Live(s, r.objectPath)
       case Done(o) => OutcomeOk(s, r, o)
       case Crashed => true
  }

  /** The run's own upload succeeded. */
  predicate Owns(r: Run) {
    r.pc.InsertOwn? || r.pc.CheckOwn? || r.pc.RemoveOwn? || ReportsShared(r)
  }

  /** Two runs own the same object name only once its barcode's row names another one. */
  ghost predicate Exclusive(s: Store, r1: Run, r2: Run) {
    Owns(r1) && Owns(r2) && r1.objectPath == r2.objectPath ==> !Live(s, r1.objectPath)
  }

  ghost predicate StoreOk(platform: Platform, s: Store) {
    RowsAgree(platform, s) && NoBlockedOrphan(platform, s)
  }

  ghost predicate Inv(platform: Platform, w: World) {
    && StoreOk(platform, w.store)
    && (forall i :: 0 <= i < |w.runs| ==> RunOk(platform, w.store, w.runs[i]))
    && (forall i, j :: 0 <= i < j < |w.runs| ==> Exclusive(w.store, w.runs[i], w.runs[j]))
  }

  // ---------------------------------------------------------------- how the store evolves

  /**
   What one run may do to the others' world: rows are permanent, and a live object
   is neither removed nor replaced. In particular, while a barcode has no row
   nothing of it has been removed yet.
   */
  ghost predicate Evolves(s: Store, s': Store) {
    && (forall g :: g in s.rows ==> g in s'.rows && s'.rows[g] == s.rows[g])
    && (forall p :: Live(s', p) ==> Live(s, p))
    && (forall p :: Live(s', p) && p in s.bucket ==> p in s'.bucket && s'.bucket[p] == s.bucket[p])
  }

  lemma StepEvolves(platform: Platform, s: Store, r: Run, source: Option<Photo>)
    requires StoreOk(platform, s) && RunOk(platform, s, r)
    ensures Evolves(s, Step(platform, s, r, source).0)
    ensures Step(platform, s, r, source).0.blocked == s.blocked
  {
  }

  lemma RunStaysOk(platform: Platform, s: Store, s': Store, r: Run)
    requires Evolves(s, s') && s'.blocked == s.blocked && RunOk(platform, s, r)
    ensures RunOk(platform, s', r)
  {
  }

  lemma StepKeepsRows(platform: Platform, s: Store, r: Run, source: Option<Photo>)
    requires StoreOk(platform, s) && RunOk(platform, s, r)
    ensures StoreOk(platform, Step(platform, s, r, source).0)
  {
  }

  lemma StepKeepsRun(platform: Platform, s: Store, r: Run, source: Option<Photo>)
    requires StoreOk(platform, s) && RunOk(platform, s, r)
    ensures var (s', r') := Step(platform, s, r, source);
      RunOk(platform, s', r') && r'.gtin14 == r.gtin14
  {
    if Searching(r) {
      SearchStep(platform, s, r, source);
    } else {
      StepEvolves(platform, s, r, source);
    }
  }

  lemma StepKeepsExclusive(platform: Platform, s: Store, r: Run, source: Option<Photo>, other: Run)
    requires StoreOk(platform, s) && RunOk(platform, s, r) && RunOk(platform, s, other)
    requires Exclusive(s, r, other)
    ensures var (s', r') := Step(platform, s, r, source);
      Exclusive(s', r', other) && Exclusive(s', other, r')
  {
    if Searching(r) {
      SearchStep(platform, s, r, source);
    } else {
      StepEvolves(platform, s, r, source);
    }
  }

  // ---------------------------------------------------------------- when a hash may be blocked

  /**
   Blocking `h` does not pull the rug from under run `r`: it is not about to upload
   a photo with that hash for a barcode without a row, and the live object it is
   looking at does not have that hash.
   */
  ghost predicate RunAllows(platform: Platform, s: Store, r: Run, h: string) {
    && (r.pc.Upload? && r.gtin14 !in s.rows && r.objectPath !in s.bucket ==> r.sha256 != h)
    && (r.pc.ReadOrphan? && Live(s, r.objectPath) && r.objectPath in s.bucket ==> HashAt(platform, s, r.objectPath) != h)
    && (r.pc.CheckOrphan? && Live(s, r.objectPath) ==> r.orphanSha != h)
  }

  ghost predicate SafeBlock(platform: Platform, w: World, h: string) {
    && (forall p :: p in w.store.bucket && IsSharedName(p) && GtinOf(p) !in w.store.rows ==>
          HashAt(platform, w.store, p) != h)
    && (forall i :: 0 <= i < |w.runs| ==> RunAllows(platform, w.store, w.runs[i], h))
  }

  ghost predicate SafeAction(platform: Platform, w: World, a: Action) {
    a.Block? ==> SafeBlock(platform, w, a.sha256)
  }

  /** Every hash the schedule blocks is safe to block at that moment. */
  ghost predicate Guarded(platform: Platform, w: World, schedule: Schedule)
    decreases |schedule|
  {
    schedule != [] ==>
      SafeAction(platform, w, schedule[0]) && Guarded(platform, Act(platform, w, schedule[0]), schedule[1..])
  }

  lemma {:induction false} FixedIsGuarded(platform: Platform, w: World, schedule: Schedule)
    requires FixedBlockList(schedule)
    ensures Guarded(platform, w, schedule)
    decreases |schedule|
  {
    if schedule != [] {
      FixedIsGuarded(platform, Act(platform, w, schedule[0]), schedule[1..]);
    }
  }

  lemma {:induction false} GuardedConcat(platform: Platform, w: World, a: Schedule, b: Schedule)
    requires Guarded(platform, w, a + b)
    ensures Guarded(platform, w, a) && Guarded(platform, Exec(platform, w, a), b)
    decreases |a|
  {
    if a == [] {
      assert a + b == b;
    } else {
      assert (a + b)[1..] == a[1..] + b;
      GuardedConcat(platform, Act(platform, w, a[0]), a[1..], b);
    }
  }

  lemma BlockKeepsInv(platform: Platform, w: World, h: string)
    requires Inv(platform, w) && SafeBlock(platform, w, h)
    ensures Inv(platform, Act(platform, w, Block(h)))
  {
    var w' := Act(platform, w, Block(h));
    forall i | 0 <= i < |w.runs|
      ensures RunOk(platform, w'.store, w.runs[i])
    {
      assert RunAllows(platform, w.store, w.runs[i], h) && RunOk(platform, w.store, w.runs[i]);
    }
    forall i, j | 0 <= i < j < |w'.runs|
      ensures Exclusive(w'.store, w'.runs[i], w'.runs[j])
    {
      assert Exclusive(w.store, w.runs[i], w.runs[j]);
    }
  }

  /** One run and the store have moved on, and the other runs still know what they knew. */
  lemma InvFromStep(platform: Platform, w: World, i: nat, s': Store, r': Run)
    requires i < |w.runs| && StoreOk(platform, s') && RunOk(platform, s', r')
    requires forall j :: 0 <= j < |w.runs| && j != i ==> RunOk(platform, s', w.runs[j])
    requires forall j :: 0 <= j < |w.runs| && j != i ==>
               Exclusive(s', r', w.runs[j]) && Exclusive(s', w.runs[j], r')
    requires forall j, k :: 0 <= j < k < |w.runs| && j != i && k != i ==> Exclusive(s', w.runs[j], w.runs[k])
    ensures Inv(platform, World(s', w.runs[i := r']))
  {
  }

  lemma EvolvesKeepsExclusive(s: Store, s': Store, r1: Run, r2: Run)
    requires Evolves(s, s') && Exclusive(s, r1, r2)
    ensures Exclusive(s', r1, r2)
  {
  }

  lemma CallKeepsInv(platform: Platform, w: World, i: nat, source: Option<Photo>)
    requires Inv(platform, w) && i < |w.runs|
    ensures var (s', r') := Step(platform, w.store, w.runs[i], source);
      Inv(platform, World(s', w.runs[i := r'])) && Evolves(w.store, s')
  {
    var r := w.runs[i];
    var (s', r') := Step(platform, w.store, r, source);
    StepEvolves(platform, w.store, r, source);
    StepKeepsRows(platform, w.store, r, source);
    StepKeepsRun(platform, w.store, r, source);
    forall j | 0 <= j < |w.runs| && j != i
      ensures RunOk(platform, s', w.runs[j])
      ensures Exclusive(s', r', w.runs[j]) && Exclusive(s', w.runs[j], r')
    {
      RunStaysOk(platform, w.store, s', w.runs[j]);
      assert if j < i then Exclusive(w.store, w.runs[j], r) else Exclusive(w.store, r, w.runs[j]);
      StepKeepsExclusive(platform, w.store, r, source, w.runs[j]);
    }
    forall j, k | 0 <= j < k < |w.runs|
      ensures Exclusive(s', w.runs[j], w.runs[k])
    {
      EvolvesKeepsExclusive(w.store, s', w.runs[j], w.runs[k]);
    }
    InvFromStep(platform, w, i, s', r');
  }

  lemma ActKeepsInv(platform: Platform, w: World, a: Action)
    requires Inv(platform, w) && SafeAction(platform, w, a)
    ensures Inv(platform, Act(platform, w, a))
    ensures Evolves(w.store, Act(platform, w, a).store)
  {
    match a
    case Block(h) => BlockKeepsInv(platform, w, h);
    case Call(i, source) =>
      if i < |w.runs| {
        CallKeepsInv(platform, w, i, source);
      }
    case Start(g, candidates) =>
    case Crash(i) =>
  }

  lemma {:induction false} ExecKeepsInv(platform: Platform, w: World, schedule: Schedule)
    requires Inv(platform, w) && Guarded(platform, w, schedule)
    ensures Inv(platform, Exec(platform, w, schedule))
    ensures Evolves(w.store, Exec(platform, w, schedule).store)
    decreases |schedule|
  {
    if schedule != [] {
      ActKeepsInv(platform, w, schedule[0]);
      ExecKeepsInv(platform, Act(platform, w, schedule[0]), schedule[1..]);
    }
  }

  // ---------------------------------------------------------------- theorems

  /** Where the theorems start: no run yet, and nothing blocked without a row. */
  ghost predicate GoodStart(platform: Platform, w: World) {
    w.runs == [] && StoreOk(platform, w.store)
  }

  /** Whenever a row exists, the object it names is there and hashes to exactly the row's sha256. */
  lemma RowsAgreeAlways(platform: Platform, w: World, schedule: Schedule)
    requires GoodStart(platform, w) && Guarded(platform, w, schedule)
    ensures RowsAgree(platform, Exec(platform, w, schedule).store)
  {
    ExecKeepsInv(platform, w, schedule);
  }

  predicate ReportsShared(r: Run) {
    r.pc.Done? && r.pc.outcome.status.Shared?
  }

  lemma NotBothShared(platform: Platform, s: Store, r1: Run, r2: Run)
    requires RunOk(platform, s, r1) && RunOk(platform, s, r2) && Exclusive(s, r1, r2)
    requires StoreOk(platform, s) && r1.gtin14 == r2.gtin14
    ensures !(ReportsShared(r1) && ReportsShared(r2))
  {
  }

  lemma OutcomeIsOk(platform: Platform, s: Store, r: Run)
    requires RunOk(platform, s, r) && r.pc.Done?
    ensures OutcomeOk(s, r, r.pc.outcome)
  {
  }

  lemma InvMeansOneWinner(platform: Platform, w: World)
    requires Inv(platform, w)
    ensures forall i, j :: 0 <= i < j < |w.runs| && w.runs[i].gtin14 == w.runs[j].gtin14 ==>
              !(ReportsShared(w.runs[i]) && ReportsShared(w.runs[j]))
    ensures forall i :: 0 <= i < |w.runs| && w.runs[i].pc.Done? ==> OutcomeOk(w.store, w.runs[i], w.runs[i].pc.outcome)
  {
    forall i, j | 0 <= i < j < |w.runs| && w.runs[i].gtin14 == w.runs[j].gtin14
      ensures !(ReportsShared(w.runs[i]) && ReportsShared(w.runs[j]))
    {
      NotBothShared(platform, w.store, w.runs[i], w.runs[j]);
    }
    forall i | 0 <= i < |w.runs| && w.runs[i].pc.Done?
      ensures OutcomeOk(w.store, w.runs[i], w.runs[i].pc.outcome)
    {
      OutcomeIsOk(platform, w.store, w.runs[i]);
    }
  }

  /**
   At most one run of a barcode reports "shared", with the row's own hash, and
   every "already_shared" is true: the barcode has a row.
   */
  lemma OneWinner(platform: Platform, w: World, schedule: Schedule)
    requires GoodStart(platform, w) && Guarded(platform, w, schedule)
    ensures var w' := Exec(platform, w, schedule);
      && (forall i, j :: 0 <= i < j < |w'.runs| && w'.runs[i].gtin14 == w'.runs[j].gtin14 ==>
            !(ReportsShared(w'.runs[i]) && ReportsShared(w'.runs[j])))
      && (forall i :: 0 <= i < |w'.runs| && w'.runs[i].pc.Done? ==>
            OutcomeOk(w'.store, w'.runs[i], w'.runs[i].pc.outcome))
  {
    ExecKeepsInv(platform, w, schedule);
    InvMeansOneWinner(platform, Exec(platform, w, schedule));
  }

  /** The first photo stays: no later run changes a barcode's row or the object it names. */
  lemma FirstPhotoStays(platform: Platform, w: World, before: Schedule, after: Schedule, g: string)
    requires GoodStart(platform, w) && Guarded(platform, w, before + after)
    requires g in Exec(platform, w, before).store.rows
    ensures var s, s' := Exec(platform, w, before).store, Exec(platform, w, before + after).store;
      && g in s'.rows && s'.rows[g] == s.rows[g]
      && s.rows[g].objectPath in s.bucket && s.rows[g].objectPath in s'.bucket
      && s'.bucket[s.rows[g].objectPath] == s.bucket[s.rows[g].objectPath]
  {
    ExecConcat(platform, w, before, after);
    GuardedConcat(platform, w, before, after);
    ExecKeepsInv(platform, w, before);
    ExecKeepsInv(platform, Exec(platform, w, before), after);
    var s, s' := Exec(platform, w, before).store, Exec(platform, w, before + after).store;
    assert Live(s', s.rows[g].objectPath);
  }

  // ---------------------------------------------------------------- no stray copies

  /** Run `r` is responsible for the object at `p`: it uploaded it and has yet to settle it. */
  predicate AnswersFor(r: Run, p: string) {
    r.objectPath == p && (r.pc.InsertOwn? || r.pc.CheckOwn? || r.pc.RemoveOwn? || r.pc.Crashed?)
  }

  predicate IsRowObject(s: Store, g: string, p: string) {
    g in s.rows && s.rows[g].objectPath == p
  }

  /** Every object of barcode `g` is the row's, or some run still answers for it. */
  ghost predicate Accounted(w: World, g: string) {
    forall p :: p in w.store.bucket && GtinOf(p) == g ==>
      IsRowObject(w.store, g, p) || exists i :: 0 <= i < |w.runs| && AnswersFor(w.runs[i], p)
  }

  /** A step leaves a new object answered for, and drops an answer only with the object or for the row's. */
  lemma StepAnswers(platform: Platform, s: Store, r: Run, source: Option<Photo>, p: string)
    requires StoreOk(platform, s) && RunOk(platform, s, r)
    ensures var (s', r') := Step(platform, s, r, source);
      p in s'.bucket && (p !in s.bucket || AnswersFor(r, p)) ==>
        AnswersFor(r', p) || IsRowObject(s', GtinOf(p), p)
  {
  }

  lemma ActKeepsAccounted(platform: Platform, w: World, a: Action, g: string)
    requires Inv(platform, w) && SafeAction(platform, w, a) && Accounted(w, g)
    ensures Accounted(Act(platform, w, a), g)
  {
    ActKeepsInv(platform, w, a);
    var w' := Act(platform, w, a);
    forall p | p in w'.store.bucket && GtinOf(p) == g && !IsRowObject(w'.store, g, p)
      ensures exists i :: 0 <= i < |w'.runs| && AnswersFor(w'.runs[i], p)
    {
      if a.Call? && a.i < |w.runs| {
        StepAnswers(platform, w.store, w.runs[a.i], a.source, p);
        if p in w.store.bucket {
          var i :| 0 <= i < |w.runs| && AnswersFor(w.runs[i], p);
          assert AnswersFor(w'.runs[i], p);
        } else {
          assert AnswersFor(w'.runs[a.i], p);
        }
      } else {
        var i :| 0 <= i < |w.runs| && AnswersFor(w.runs[i], p);
        assert AnswersFor(w'.runs[i], p);
      }
    }
  }

  lemma {:induction false} ExecKeepsAccounted(platform: Platform, w: World, schedule: Schedule, g: string)
    requires Inv(platform, w) && Guarded(platform, w, schedule) && Accounted(w, g)
    ensures Accounted(Exec(platform, w, schedule), g)
    decreases |schedule|
  {
    if schedule != [] {
      ActKeepsInv(platform, w, schedule[0]);
      ActKeepsAccounted(platform, w, schedule[0], g);
      ExecKeepsAccounted(platform, Act(platform, w, schedule[0]), schedule[1..], g);
    }
  }

  /**
   A barcode that starts without objects, once every run for it has returned, has
   exactly the object its row names, and none when it has no row: no copy of
   another type is left behind.
   */
  lemma NoStrayCopies(platform: Platform, w: World, schedule: Schedule, g: string)
    requires GoodStart(platform, w) && Guarded(platform, w, schedule) && IsGtin14(g)
    requires forall p :: p in w.store.bucket ==> GtinOf(p) != g
    requires forall i :: 0 <= i < |Exec(platform, w, schedule).runs| ==>
               Exec(platform, w, schedule).runs[i].gtin14 == g ==> Exec(platform, w, schedule).runs[i].pc.Done?
    ensures var s' := Exec(platform, w, schedule).store;
      forall p :: GtinOf(p) == g ==> (p in s'.bucket <==> IsRowObject(s', g, p))
  {
    ExecKeepsInv(platform, w, schedule);
    ExecKeepsAccounted(platform, w, schedule, g);
  }
}
