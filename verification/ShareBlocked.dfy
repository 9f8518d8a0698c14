/**
 "A blocked hash is never shared": from the moment a hash is blocked, for every
 interleaving, every later growth of the block list and every set of objects
 without a row, exactly the runs already past their checks can still share it.
 */
module ShareBlocked {
  import opened Prelude
  import opened SharePhoto
  import opened ShareMachine

  /** There is an object at `p` and its contents have the hash `h`. */
  predicate HasAt(platform: Platform, s: Store, p: string, h: string) {
    p in s.bucket && platform.sha256Hex(s.bucket[p].bytes) == h
  }

  /** No row outside `before` carries the hash `h` or names an object with it. */
  ghost predicate NotShared(platform: Platform, s: Store, before: set<string>, h: string) {
    forall g :: g in s.rows && g !in before ==>
      s.rows[g].sha256 != h && !HasAt(platform, s, s.rows[g].objectPath, h)
  }

  /** What every run knows of itself at each program counter. */
  predicate Formed(platform: Platform, r: Run) {
    && IsGtin14(r.gtin14)
    && OwnName(r)
    && match r.pc
       case CheckRow => true
       case ReadSource => true
       case CheckBlock => Hashed(platform, r)
       case Done(_) => true
       case Crashed => true
       case _ => r.objectPath != "" && Hashed(platform, r)
  }

  /**
   The blocked hash `h` slipped past the run: its own photo has it and is past the
   check, or the object it found has it and will not be looked up again.
   */
  predicate MayShare(platform: Platform, s: Store, r: Run, h: string) {
    match r.pc
    case Upload => r.sha256 == h
    case Recheck => r.sha256 == h
    case ReadOrphan => r.sha256 == h
    case CheckOrphan => r.sha256 == h || (r.orphanSha !in s.blocked && HasAt(platform, s, r.objectPath, h))
    case InsertOrphan => r.orphanSha == h || HasAt(platform, s, r.objectPath, h)
    case RemoveOrphan => r.sha256 == h
    case Retry => r.sha256 == h
    case InsertOwn => r.sha256 == h || HasAt(platform, s, r.objectPath, h)
    case _ => false
  }

  /** The run is well formed, and its barcode had a row before or it will not share `h`. */
  predicate RunSafe(platform: Platform, s: Store, r: Run, before: set<string>, h: string) {
    Formed(platform, r) && (r.gtin14 in before || !MayShare(platform, s, r, h))
  }

  /** Rows name objects of their own barcode. */
  ghost predicate RowsOwn(s: Store, before: set<string>) {
    forall g :: g in s.rows && g !in before ==> GtinOf(s.rows[g].objectPath) == g
  }

  ghost predicate Inv(platform: Platform, w: World, before: set<string>, h: string) {
    && h in w.store.blocked
    && NotShared(platform, w.store, before, h)
    && RowsOwn(w.store, before)
    && forall i :: 0 <= i < |w.runs| ==> RunSafe(platform, w.store, w.runs[i], before, h)
  }

  /** Searching leaves the store alone and ends with an unblocked photo or without one. */
  lemma SearchIsFormed(platform: Platform, s: Store, r: Run, source: Option<Photo>)
    requires Searching(r) && Formed(platform, r)
    ensures var (s', r') := Step(platform, s, r, source);
      && s' == s && r'.gtin14 == r.gtin14 && Formed(platform, r')
      && (Searching(r') || r'.pc.Done? || (r'.pc.Upload? && r'.sha256 !in s.blocked))
  {
    match r.pc
    case CheckRow => NextCandidateFrame(platform, r.gtin14, r.todo, r.skipped);
    case ReadSource =>
      forall reason { NextCandidateFrame(platform, r.gtin14, r.todo, r.skipped + [Skip(r.c.productId, reason)]); }
    case CheckBlock =>
      NextCandidateFrame(platform, r.gtin14, r.todo, r.skipped + [Skip(r.c.productId, Blocked)]);
      PathBelongsToGtin(r.gtin14, r.photo.contentType);
  }

  lemma StepIsFormed(platform: Platform, s: Store, r: Run, source: Option<Photo>)
    requires Formed(platform, r)
    ensures var (s', r') := Step(platform, s, r, source); Formed(platform, r') && r'.gtin14 == r.gtin14
  {
    if Searching(r) {
      SearchIsFormed(platform, s, r, source);
    }
  }

  /** What a step does to a store in which `h` is blocked: no object of a new barcode comes to have it. */
  ghost predicate NoNewContents(platform: Platform, s: Store, s': Store, before: set<string>, h: string) {
    forall p :: GtinOf(p) !in before && HasAt(platform, s', p, h) ==> HasAt(platform, s, p, h)
  }

  lemma StepKeepsSafe(platform: Platform, s: Store, r: Run, source: Option<Photo>, before: set<string>, h: string)
    requires h in s.blocked && RunSafe(platform, s, r, before, h)
    requires NotShared(platform, s, before, h) && RowsOwn(s, before)
    ensures var (s', r') := Step(platform, s, r, source);
      && s'.blocked == s.blocked
      && NoNewContents(platform, s, s', before, h)
      && NotShared(platform, s', before, h) && RowsOwn(s', before)
  {
    if Searching(r) {
      SearchIsFormed(platform, s, r, source);
    }
  }

  lemma StepKeepsRunSafe(platform: Platform, s: Store, r: Run, source: Option<Photo>, before: set<string>, h: string)
    requires h in s.blocked && RunSafe(platform, s, r, before, h)
    ensures var (s', r') := Step(platform, s, r, source); RunSafe(platform, s', r', before, h)
  {
    StepIsFormed(platform, s, r, source);
    if Searching(r) {
      SearchIsFormed(platform, s, r, source);
    }
  }

  lemma OthersStaySafe(platform: Platform, s: Store, s': Store, r: Run, before: set<string>, h: string)
    requires RunSafe(platform, s, r, before, h) && s.blocked <= s'.blocked
    requires NoNewContents(platform, s, s', before, h)
    ensures RunSafe(platform, s', r, before, h)
  {
  }

  lemma ActKeepsSafe(platform: Platform, w: World, a: Action, before: set<string>, h: string)
    requires Inv(platform, w, before, h)
    ensures Inv(platform, Act(platform, w, a), before, h)
  {
    var w' := Act(platform, w, a);
    if a.Call? && a.i < |w.runs| {
      StepKeepsSafe(platform, w.store, w.runs[a.i], a.source, before, h);
      StepKeepsRunSafe(platform, w.store, w.runs[a.i], a.source, before, h);
    }
    forall i | 0 <= i < |w'.runs|
      ensures RunSafe(platform, w'.store, w'.runs[i], before, h)
    {
      if i < |w.runs| {
        OthersStaySafe(platform, w.store, w'.store, w.runs[i], before, h);
      }
    }
  }

  lemma {:induction false} ExecKeepsSafe(platform: Platform, w: World, schedule: Schedule, before: set<string>, h: string)
    requires Inv(platform, w, before, h)
    ensures NotShared(platform, Exec(platform, w, schedule).store, before, h)
    decreases |schedule|
  {
    if schedule != [] {
      ActKeepsSafe(platform, w, schedule[0], before, h);
      ExecKeepsSafe(platform, Act(platform, w, schedule[0]), schedule[1..], before, h);
    }
  }

  /**
   What is blocked when the first run starts is never shared: at every point of every
   interleaving, further blocks included, a row inserted since is free of it.
   */
  lemma BlockedNeverShared(platform: Platform, w: World, schedule: Schedule, g: string)
    requires w.runs == []
    requires g !in w.store.rows && g in Exec(platform, w, schedule).store.rows
    ensures var s' := Exec(platform, w, schedule).store;
      && s'.rows[g].sha256 !in w.store.blocked
      && (s'.rows[g].objectPath in s'.bucket ==>
            platform.sha256Hex(s'.bucket[s'.rows[g].objectPath].bytes) !in w.store.blocked)
  {
    forall h | h in w.store.blocked
      ensures NotShared(platform, Exec(platform, w, schedule).store, w.store.rows.Keys, h)
    {
      ExecKeepsSafe(platform, w, schedule, w.store.rows.Keys, h);
    }
  }
}
