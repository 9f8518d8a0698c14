/**
 One call of `shareFirstUnblocked` with nobody else at work: the imperative
 function over its ports, the state machine run to its end, and the simple rule
 both refine, "the first eligible candidate, in order".
 */
module ShareAlone {
  import opened Prelude
  import opened SharePhoto
  import M = ShareMachine

  type Sources = map<string, Photo>

  // ---------------------------------------------------------------- the rule

  function SourcePhoto(platform: Platform, sources: Sources, c: Candidate): Option<Photo> {
    match SourceObjectPath(platform, c.imageUrl, c.businessId)
    case Some(path) => if path in sources then Some(sources[path]) else None
    case None => None
  }

  /** Why candidate `c` cannot be shared, or None when it can. */
  function Obstacle(platform: Platform, sources: Sources, blocked: set<string>, c: Candidate): Option<SkipReason> {
    if SourceObjectPath(platform, c.imageUrl, c.businessId).None? then Some(InvalidSource)
    else
      match SourcePhoto(platform, sources, c)
      case None => Some(SourceMissing)
      case Some(photo) =>
        if |photo.bytes| > MAX_PHOTO_BYTES then Some(TooLarge)
        else if PhotoContentType(platform, photo).None? then Some(UnsupportedType)
        else if platform.sha256Hex(photo.bytes) in blocked then Some(Blocked)
        else None
  }

  /** The index of the first candidate that can be shared, or the number of candidates. */
  function FirstEligible(platform: Platform, sources: Sources, blocked: set<string>, cs: seq<Candidate>): (k: nat)
    ensures k <= |cs|
    ensures forall j :: 0 <= j < k ==> Obstacle(platform, sources, blocked, cs[j]).Some?
    ensures k < |cs| ==> Obstacle(platform, sources, blocked, cs[k]).None?
  {
    if cs == [] || Obstacle(platform, sources, blocked, cs[0]).None? then 0
    else 1 + FirstEligible(platform, sources, blocked, cs[1..])
  }

  /** The skip list for candidates none of which can be shared. */
  function Skips(platform: Platform, sources: Sources, blocked: set<string>, cs: seq<Candidate>): seq<Skip>
    requires forall j :: 0 <= j < |cs| ==> Obstacle(platform, sources, blocked, cs[j]).Some?
  {
    seq(|cs|, j requires 0 <= j < |cs| =>
      Skip(cs[j].productId, Obstacle(platform, sources, blocked, cs[j]).value))
  }

  /**
   The whole rule: a barcode with a row is left alone; otherwise the first
   eligible photo becomes the shared one, unless an unblocked object already has
   its name, which is then recorded instead.
   */
  function Rule(platform: Platform, sources: Sources, s: M.Store, g: string, cs: seq<Candidate>): (M.Store, ShareOutcome) {
    if g in s.rows then (s, ShareOutcome(AlreadyShared, g, None, None, false, []))
    else
      var k := FirstEligible(platform, sources, s.blocked, cs);
      var skipped := Skips(platform, sources, s.blocked, cs[..k]);
      if k == |cs| then (s, ShareOutcome(NothingToShare, g, None, None, false, skipped))
      else
        var source := SourcePhoto(platform, sources, cs[k]).value;
        var contentType := PhotoContentType(platform, source).value;
        Placed(platform, s, g, cs[k], Photo(source.bytes, contentType), skipped)
  }

  function Placed(platform: Platform, s: M.Store, g: string, c: Candidate, photo: Photo, skipped: seq<Skip>): (M.Store, ShareOutcome)
    requires Extension(photo.contentType).Some?
  {
    var path := SharedObjectPath(g, photo.contentType).value;
    var sha := platform.sha256Hex(photo.bytes);
    if path in s.bucket && platform.sha256Hex(s.bucket[path].bytes) !in s.blocked then
      var orphanSha := platform.sha256Hex(s.bucket[path].bytes);
      (s.(rows := s.rows[g := SharedRow(g, path, orphanSha)]),
       ShareOutcome(AlreadyShared, g, None, None, true, skipped))
    else
      (s.(rows := s.rows[g := SharedRow(g, path, sha)], bucket := s.bucket[path := photo]),
       ShareOutcome(Shared, g, Some(c.productId), Some(sha), false, skipped))
  }

  // ---------------------------------------------------------------- the machine, run to its end

  /** Where a run ends that nobody interrupts, and how many port calls it took. */
  function RunToEnd(platform: Platform, sources: Sources, s: M.Store, r: M.Run): (M.Store, M.Run, nat)
    decreases M.CallsLeft(r)
  {
    if r.Finished() then (s, r, 0)
    else
      M.StepSpendsCall(platform, s, r, SourcePhoto(platform, sources, r.c));
      var (s', r') := M.Step(platform, s, r, SourcePhoto(platform, sources, r.c));
      var (s'', r'', n) := RunToEnd(platform, sources, s', r');
      (s'', r'', n + 1)
  }

  /** From the upload on: what ends up in the store is what the rule says. */
  lemma PlacingFollowsRule(platform: Platform, sources: Sources, s: M.Store, r: M.Run)
    requires r.pc.Upload? && r.gtin14 !in s.rows
    requires Extension(r.photo.contentType).Some? && r.sha256 == platform.sha256Hex(r.photo.bytes)
    requires r.objectPath == SharedObjectPath(r.gtin14, r.photo.contentType).value
    ensures var (s', r', n) := RunToEnd(platform, sources, s, r);
      var (s1, outcome) := Placed(platform, s, r.gtin14, r.c, r.photo, r.skipped);
      s' == s1 && r'.pc == M.Done(outcome) && n <= 8
  {
    if r.objectPath !in s.bucket {
      OwnCopyFollowsRule(platform, sources, s.(bucket := s.bucket[r.objectPath := r.photo]), r.(pc := M.InsertOwn));
    } else {
      var found := r.(orphanSha := platform.sha256Hex(s.bucket[r.objectPath].bytes), pc := M.CheckOrphan);
      assert M.Step(platform, s, r.(pc := M.ReadOrphan), SourcePhoto(platform, sources, r.c)) == (s, found);
      assert M.Step(platform, s, r.(pc := M.Recheck), SourcePhoto(platform, sources, r.c)) == (s, r.(pc := M.ReadOrphan));
      OrphanFollowsRule(platform, sources, s, found);
      RunToEndStep(platform, sources, s, r.(pc := M.ReadOrphan));
      RunToEndStep(platform, sources, s, r.(pc := M.Recheck));
    }
    RunToEndStep(platform, sources, s, r);
  }

  lemma RunToEndStep(platform: Platform, sources: Sources, s: M.Store, r: M.Run)
    requires !r.Finished()
    ensures var (s', r') := M.Step(platform, s, r, SourcePhoto(platform, sources, r.c));
      var (s1, r1, n) := RunToEnd(platform, sources, s', r');
      RunToEnd(platform, sources, s, r) == (s1, r1, n + 1)
  {
  }

  lemma OwnCopyFollowsRule(platform: Platform, sources: Sources, s: M.Store, r: M.Run)
    requires r.pc.InsertOwn? && r.gtin14 !in s.rows
    ensures var row := SharedRow(r.gtin14, r.objectPath, r.sha256);
      var (s', r', n) := RunToEnd(platform, sources, s, r);
      && s' == s.(rows := s.rows[r.gtin14 := row])
      && r'.pc == M.Done(ShareOutcome(Shared, r.gtin14, Some(r.c.productId), Some(r.sha256), false, r.skipped))
      && n == 2
  {
    var s1 := s.(rows := s.rows[r.gtin14 := SharedRow(r.gtin14, r.objectPath, r.sha256)]);
    RunToEndStep(platform, sources, s1, r.(pc := M.CheckOwn));
    RunToEndStep(platform, sources, s, r);
  }

  lemma ReplacingOrphan(platform: Platform, sources: Sources, s: M.Store, r: M.Run)
    requires r.pc.RemoveOrphan? && r.gtin14 !in s.rows
    ensures var row := SharedRow(r.gtin14, r.objectPath, r.sha256);
      var (s', r', n) := RunToEnd(platform, sources, s, r);
      && s' == s.(rows := s.rows[r.gtin14 := row], bucket := s.bucket[r.objectPath := r.photo])
      && r'.pc == M.Done(ShareOutcome(Shared, r.gtin14, Some(r.c.productId), Some(r.sha256), false, r.skipped))
      && n == 4
  {
    var removed := M.RemoveShared(s, r.objectPath);
    var replaced := M.UploadShared(removed, r.objectPath, r.photo);
    assert replaced.bucket == s.bucket[r.objectPath := r.photo];
    var source := SourcePhoto(platform, sources, r.c);
    assert M.Step(platform, s, r, source) == (removed, r.(pc := M.Retry));
    assert M.Step(platform, removed, r.(pc := M.Retry), source) == (replaced, r.(pc := M.InsertOwn));
    OwnCopyFollowsRule(platform, sources, replaced, r.(pc := M.InsertOwn));
    RunToEndStep(platform, sources, removed, r.(pc := M.Retry));
    RunToEndStep(platform, sources, s, r);
  }

  /** The orphan is recorded. */
  lemma RecordingOrphan(platform: Platform, sources: Sources, s: M.Store, r: M.Run)
    requires r.pc.InsertOrphan? && r.gtin14 !in s.rows
    ensures RunToEnd(platform, sources, s, r)
         == (s.(rows := s.rows[r.gtin14 := SharedRow(r.gtin14, r.objectPath, r.orphanSha)]),
             r.(pc := M.Done(ShareOutcome(AlreadyShared, r.gtin14, None, None, true, r.skipped))), 1)
  {
    RunToEndStep(platform, sources, s, r);
  }

  lemma OrphanFollowsRule(platform: Platform, sources: Sources, s: M.Store, r: M.Run)
    requires r.pc.CheckOrphan? && r.gtin14 !in s.rows && r.objectPath in s.bucket
    requires r.orphanSha == platform.sha256Hex(s.bucket[r.objectPath].bytes)
    requires Extension(r.photo.contentType).Some? && r.sha256 == platform.sha256Hex(r.photo.bytes)
    requires r.objectPath == SharedObjectPath(r.gtin14, r.photo.contentType).value
    ensures var (s', r', n) := RunToEnd(platform, sources, s, r);
      var (s1, outcome) := Placed(platform, s, r.gtin14, r.c, r.photo, r.skipped);
      s' == s1 && r'.pc == M.Done(outcome) && n <= 5
  {
    var source := SourcePhoto(platform, sources, r.c);
    RunToEndStep(platform, sources, s, r);
    if r.orphanSha in s.blocked {
      assert M.Step(platform, s, r, source) == (s, r.(pc := M.RemoveOrphan));
      ReplacingOrphan(platform, sources, s, r.(pc := M.RemoveOrphan));
    } else {
      assert M.Step(platform, s, r, source) == (s, r.(pc := M.InsertOrphan));
      RecordingOrphan(platform, sources, s, r.(pc := M.InsertOrphan));
    }
  }

  lemma RuleSkips(platform: Platform, sources: Sources, s: M.Store, g: string, cs: seq<Candidate>)
    requires g !in s.rows && cs != [] && Obstacle(platform, sources, s.blocked, cs[0]).Some?
    ensures var (s1, o1) := Rule(platform, sources, s, g, cs);
      var (s2, o2) := Rule(platform, sources, s, g, cs[1..]);
      && s1 == s2
      && o1 == o2.(skipped := [Skip(cs[0].productId, Obstacle(platform, sources, s.blocked, cs[0]).value)] + o2.skipped)
  {
  }

  /** A candidate with an obstacle costs at most two calls and leaves one skip behind. */
  lemma SkippedCandidate(platform: Platform, sources: Sources, s: M.Store, g: string, todo: seq<Candidate>, skipped: seq<Skip>)
    requires todo != [] && Obstacle(platform, sources, s.blocked, todo[0]).Some?
    ensures var skip := Skip(todo[0].productId, Obstacle(platform, sources, s.blocked, todo[0]).value);
      var (s1, r1, n1) := RunToEnd(platform, sources, s, M.NextCandidate(platform, g, todo, skipped));
      var (s2, r2, n2) := RunToEnd(platform, sources, s, M.NextCandidate(platform, g, todo[1..], skipped + [skip]));
      s1 == s2 && r1 == r2 && n1 <= n2 + 2
  {
    var obstacle := Obstacle(platform, sources, s.blocked, todo[0]).value;
    if obstacle != InvalidSource {
      var reading := M.Fresh(g, todo[1..], skipped, todo[0], M.ReadSource);
      RunToEndStep(platform, sources, s, reading);
      if obstacle == Blocked {
        var checking := M.SourceRead(platform, reading, SourcePhoto(platform, sources, todo[0]));
        RunToEndStep(platform, sources, s, checking);
      }
    }
  }

  lemma ChosenCandidate(platform: Platform, sources: Sources, s: M.Store, g: string, todo: seq<Candidate>, skipped: seq<Skip>)
    requires g !in s.rows && todo != [] && Obstacle(platform, sources, s.blocked, todo[0]).None?
    ensures var (s', r', n) := RunToEnd(platform, sources, s, M.NextCandidate(platform, g, todo, skipped));
      var (s1, outcome) := Rule(platform, sources, s, g, todo);
      s' == s1 && r'.pc == M.Done(outcome.(skipped := skipped)) && n <= 10
  {
    var source := SourcePhoto(platform, sources, todo[0]).value;
    var reading := M.Fresh(g, todo[1..], skipped, todo[0], M.ReadSource);
    var checking := M.SourceRead(platform, reading, Some(source));
    var path := SharedObjectPath(g, checking.photo.contentType).value;
    RunToEndStep(platform, sources, s, reading);
    RunToEndStep(platform, sources, s, checking);
    PlacingFollowsRule(platform, sources, s, checking.(objectPath := path, pc := M.Upload));
  }

  /** The loop, from any candidate on. */
  lemma {:induction false} SearchFollowsRule(
    platform: Platform, sources: Sources, s: M.Store, g: string, todo: seq<Candidate>, skipped: seq<Skip>)
    requires g !in s.rows
    ensures var (s', r', n) := RunToEnd(platform, sources, s, M.NextCandidate(platform, g, todo, skipped));
      var (s1, outcome) := Rule(platform, sources, s, g, todo);
      && s' == s1
      && r'.pc == M.Done(outcome.(skipped := skipped + outcome.skipped))
      && n <= 2 * |todo| + 8
    decreases |todo|
  {
    if todo == [] {
      assert skipped + [] == skipped;
    } else {
      var obstacle := Obstacle(platform, sources, s.blocked, todo[0]);
      if obstacle.Some? {
        var skip := Skip(todo[0].productId, obstacle.value);
        SkippedCandidate(platform, sources, s, g, todo, skipped);
        SearchFollowsRule(platform, sources, s, g, todo[1..], skipped + [skip]);
        RuleSkips(platform, sources, s, g, todo);
        var rest := Rule(platform, sources, s, g, todo[1..]).1.skipped;
        assert skipped + ([skip] + rest) == (skipped + [skip]) + rest;
      } else {
        ChosenCandidate(platform, sources, s, g, todo, skipped);
        assert skipped + [] == skipped;
      }
    }
  }

  /**
   A run nobody interrupts shares the first eligible candidate, reports exactly
   the earlier ones with their reasons, and makes at most 2n + 9 port calls.
   */
  lemma AloneFollowsRule(platform: Platform, sources: Sources, s: M.Store, g: string, cs: seq<Candidate>)
    ensures var (s', r', n) := RunToEnd(platform, sources, s, M.Begin(g, cs));
      var (s1, outcome) := Rule(platform, sources, s, g, cs);
      s' == s1 && r'.pc == M.Done(outcome) && n <= 2 * |cs| + 9
  {
    RunToEndStep(platform, sources, s, M.Begin(g, cs));
    if g !in s.rows {
      SearchFollowsRule(platform, sources, s, g, cs, []);
      var skipped := Rule(platform, sources, s, g, cs).1.skipped;
      assert [] + skipped == skipped;
    }
  }

  // ---------------------------------------------------------------- the function itself

  /** The ports, over an in-memory bucket, row table and block list. */
  class Ports {
    const platform: Platform
    var sources: Sources
    var bucket: map<string, Photo>
    var rows: map<string, SharedRow>
    var blocked: set<string>
    ghost var calls: nat      // port calls made so far

    constructor (platform: Platform, sources: Sources, bucket: map<string, Photo>,
                 rows: map<string, SharedRow>, blocked: set<string>)
      ensures this.platform == platform && this.sources == sources && calls == 0
      ensures Snapshot() == M.Store(bucket, rows, blocked)
    {
      this.platform, this.sources := platform, sources;
      this.bucket, this.rows, this.blocked := bucket, rows, blocked;
      calls := 0;
    }

    ghost function Snapshot(): M.Store
      reads this
    {
      M.Store(bucket, rows, blocked)
    }

    method SharedPhotoPath(gtin14: string) returns (path: Option<string>)
      modifies this`calls
      ensures path == M.SharedPhotoPath(Snapshot(), gtin14) && calls == old(calls) + 1
    {
      calls := calls + 1;
      path := if gtin14 in rows then Some(rows[gtin14].objectPath) else None;
    }

    method IsBlocked(sha256: string) returns (b: bool)
      modifies this`calls
      ensures b == (sha256 in blocked) && calls == old(calls) + 1
    {
      calls := calls + 1;
      b := sha256 in blocked;
    }

    method DownloadSource(path: string) returns (photo: Option<Photo>)
      modifies this`calls
      ensures photo == (if path in sources then Some(sources[path]) else None) && calls == old(calls) + 1
    {
      calls := calls + 1;
      photo := if path in sources then Some(sources[path]) else None;
    }

    method DownloadShared(path: string) returns (photo: Option<Photo>)
      modifies this`calls
      ensures photo == (if path in bucket then Some(bucket[path]) else None) && calls == old(calls) + 1
    {
      calls := calls + 1;
      photo := if path in bucket then Some(bucket[path]) else None;
    }

    method UploadShared(path: string, photo: Photo) returns (exists_: bool)
      modifies this`calls, this`bucket
      ensures exists_ == (path in old(bucket)) && calls == old(calls) + 1
      ensures Snapshot() == M.UploadShared(old(Snapshot()), path, photo)
    {
      calls := calls + 1;
      exists_ := path in bucket;
      if !exists_ { bucket := bucket[path := photo]; }
    }

    method RemoveShared(path: string)
      modifies this`calls, this`bucket
      ensures Snapshot() == M.RemoveShared(old(Snapshot()), path) && calls == old(calls) + 1
    {
      calls := calls + 1;
      bucket := bucket - {path};
    }

    method InsertSharedRow(row: SharedRow)
      modifies this`calls, this`rows
      ensures Snapshot() == M.InsertSharedRow(old(Snapshot()), row) && calls == old(calls) + 1
    {
      calls := calls + 1;
      if row.gtin14 !in rows { rows := rows[row.gtin14 := row]; }
    }
  }

  // Every port call of the function is one step of the machine. The methods carry the
  // path of machine states along as a ghost, one state longer after each call.

  datatype Config = Config(s: M.Store, r: M.Run)

  predicate Follows(platform: Platform, sources: Sources, a: Config, b: Config) {
    !a.r.Finished() && M.Step(platform, a.s, a.r, SourcePhoto(platform, sources, a.r.c)) == (b.s, b.r)
  }

  ghost predicate IsPath(platform: Platform, sources: Sources, path: seq<Config>) {
    && path != []
    && forall k :: 0 <= k < |path| - 1 ==> Follows(platform, sources, path[k], path[k + 1])
  }

  /** `path` leads to the state the ports are in, with the run at `r`, one state per port call. */
  ghost predicate At(ports: Ports, path: seq<Config>, r: M.Run)
    reads ports
  {
    && IsPath(ports.platform, ports.sources, path)
    && path[|path| - 1] == Config(ports.Snapshot(), r)
  }

  /** `after` continues `before`, with one state for each port call made since `calls`. */
  ghost predicate Continues(ports: Ports, before: seq<Config>, after: seq<Config>, calls: nat)
    reads ports
  {
    before != [] && after != [] && after[0] == before[0] && |after| == |before| + (ports.calls - calls)
  }

  ghost function Extend(platform: Platform, sources: Sources, path: seq<Config>, b: Config): (r: seq<Config>)
    requires IsPath(platform, sources, path) && Follows(platform, sources, path[|path| - 1], b)
    ensures IsPath(platform, sources, r) && r[0] == path[0] && r[|r| - 1] == b && |r| == |path| + 1
  {
    path + [b]
  }

  lemma {:induction false} PathIsRun(platform: Platform, sources: Sources, path: seq<Config>)
    requires IsPath(platform, sources, path) && path[|path| - 1].r.Finished()
    ensures RunToEnd(platform, sources, path[0].s, path[0].r)
         == (path[|path| - 1].s, path[|path| - 1].r, |path| - 1)
    decreases |path|
  {
    if |path| > 1 {
      assert Follows(platform, sources, path[0], path[1]);
      var rest := path[1..];
      forall k | 0 <= k < |rest| - 1
        ensures Follows(platform, sources, rest[k], rest[k + 1])
      {
        assert Follows(platform, sources, path[k + 1], path[k + 2]);
      }
      PathIsRun(platform, sources, rest);
      RunToEndStep(platform, sources, path[0].s, path[0].r);
    }
  }

  /** The locals of the function are those of run `r`. */
  ghost predicate SameLocals(r: M.Run, gtin14: string, c: Candidate, photo: Photo, sha256: string, skipped: seq<Skip>) {
    && r.gtin14 == gtin14 && r.c == c && r.photo == photo && r.sha256 == sha256 && r.skipped == skipped
    && Extension(photo.contentType).Some?
    && r.objectPath == SharedObjectPath(gtin14, photo.contentType).value
  }

  /** Look whose row it is, and take the copy back when the row names another object. */
  method Confirm(ports: Ports, gtin14: string, objectPath: string, c: Candidate, sha256: string, skipped: seq<Skip>,
                 ghost at: M.Run, ghost before: seq<Config>)
    returns (outcome: ShareOutcome, ghost path: seq<Config>)
    requires at.gtin14 == gtin14 && at.objectPath == objectPath && at.c == c && at.sha256 == sha256 && at.skipped == skipped
    requires at.pc.CheckOwn? && At(ports, before, at)
    modifies ports`calls, ports`bucket
    ensures At(ports, path, at.(pc := M.Done(outcome)))
    ensures Continues(ports, before, path, old(ports.calls))
  {
    var row := ports.SharedPhotoPath(gtin14);
    ghost var r := at;
    path := before;
    if row != Some(objectPath) {
      r := r.(pc := M.RemoveOwn);
      path := Extend(ports.platform, ports.sources, path, Config(ports.Snapshot(), r));
      ports.RemoveShared(objectPath);
      outcome := ShareOutcome(AlreadyShared, gtin14, None, None, false, skipped);
    } else {
      outcome := ShareOutcome(Shared, gtin14, Some(c.productId), Some(sha256), false, skipped);
    }
    path := Extend(ports.platform, ports.sources, path, Config(ports.Snapshot(), r.(pc := M.Done(outcome))));
  }

  /** Record the copy, and take it back when a row naming another object was first. */
  method Settle(ports: Ports, gtin14: string, c: Candidate, photo: Photo, sha256: string, skipped: seq<Skip>,
                ghost at: M.Run, ghost before: seq<Config>)
    returns (outcome: ShareOutcome, ghost path: seq<Config>)
    requires SameLocals(at, gtin14, c, photo, sha256, skipped)
    requires at.pc.InsertOwn? && At(ports, before, at)
    modifies ports`calls, ports`bucket, ports`rows
    ensures exists r :: At(ports, path, r) && r.pc == M.Done(outcome)
    ensures Continues(ports, before, path, old(ports.calls))
  {
    var objectPath := SharedObjectPath(gtin14, photo.contentType).value;
    ghost var s := ports.Snapshot();
    ports.InsertSharedRow(SharedRow(gtin14, objectPath, sha256));
    ghost var r := at.(pc := M.CheckOwn);
    assert Follows(ports.platform, ports.sources, Config(s, at), Config(ports.Snapshot(), r));
    path := Extend(ports.platform, ports.sources, before, Config(ports.Snapshot(), r));
    outcome, path := Confirm(ports, gtin14, objectPath, c, sha256, skipped, r, path);
  }

  /** An object was found without a row: record it, or remove it when it is blocked. */
  method RecordOrphan(ports: Ports, gtin14: string, objectPath: string, orphanSha: string, skipped: seq<Skip>,
                      ghost at: M.Run, ghost before: seq<Config>)
    returns (recorded: bool, ghost path: seq<Config>)
    requires at.gtin14 == gtin14 && at.objectPath == objectPath && at.orphanSha == orphanSha && at.skipped == skipped
    requires at.pc.CheckOrphan? && At(ports, before, at)
    modifies ports`calls, ports`bucket, ports`rows
    ensures Continues(ports, before, path, old(ports.calls))
    ensures At(ports, path, at.(pc := if recorded
              then M.Done(ShareOutcome(AlreadyShared, gtin14, None, None, true, skipped)) else M.Retry))
  {
    var blocked := ports.IsBlocked(orphanSha);
    ghost var r := at.(pc := if blocked then M.RemoveOrphan else M.InsertOrphan);
    path := Extend(ports.platform, ports.sources, before, Config(ports.Snapshot(), r));
    recorded := !blocked;
    if recorded {
      ports.InsertSharedRow(SharedRow(gtin14, objectPath, orphanSha));
      r := r.(pc := M.Done(ShareOutcome(AlreadyShared, gtin14, None, None, true, skipped)));
    } else {
      ports.RemoveShared(objectPath);
      r := r.(pc := M.Retry);
    }
    path := Extend(ports.platform, ports.sources, path, Config(ports.Snapshot(), r));
  }

  /** The name is taken: leave it to its row, record an unblocked object, or replace a blocked one. */
  method ResolveExisting(ports: Ports, gtin14: string, c: Candidate, photo: Photo, sha256: string, skipped: seq<Skip>,
                         ghost at: M.Run, ghost before: seq<Config>)
    returns (settled: Option<ShareOutcome>, ghost path: seq<Config>, ghost r: M.Run)
    requires SameLocals(at, gtin14, c, photo, sha256, skipped)
    requires at.pc.Recheck? && At(ports, before, at)
    modifies ports`calls, ports`bucket, ports`rows
    ensures At(ports, path, r) && Continues(ports, before, path, old(ports.calls))
    ensures SameLocals(r, gtin14, c, photo, sha256, skipped)
    ensures r.pc == (match settled case Some(outcome) => M.Done(outcome) case None => M.InsertOwn)
  {
    var objectPath := SharedObjectPath(gtin14, photo.contentType).value;
    r, path := at, before;
    var row := ports.SharedPhotoPath(gtin14);
    if row.Some? {
      settled := Some(ShareOutcome(AlreadyShared, gtin14, None, None, false, skipped));
      r := r.(pc := M.Done(settled.value));
      path := Extend(ports.platform, ports.sources, path, Config(ports.Snapshot(), r));
      return;
    }
    r := r.(pc := M.ReadOrphan);
    path := Extend(ports.platform, ports.sources, path, Config(ports.Snapshot(), r));
    var orphan := ports.DownloadShared(objectPath);
    if orphan.Some? {
      var orphanSha := ports.platform.sha256Hex(orphan.value.bytes);
      r := r.(orphanSha := orphanSha, pc := M.CheckOrphan);
      path := Extend(ports.platform, ports.sources, path, Config(ports.Snapshot(), r));
      var recorded: bool;
      recorded, path := RecordOrphan(ports, gtin14, objectPath, orphanSha, skipped, r, path);
      if recorded {
        settled := Some(ShareOutcome(AlreadyShared, gtin14, None, None, true, skipped));
        r := r.(pc := M.Done(settled.value));
        return;
      }
      r := r.(pc := M.Retry);
    } else {
      r := r.(pc := M.Retry);
      path := Extend(ports.platform, ports.sources, path, Config(ports.Snapshot(), r));
    }
    settled, path, r := RetryUpload(ports, gtin14, objectPath, photo, skipped, r, path);
  }

  /** One more try at the upload. */
  method RetryUpload(ports: Ports, gtin14: string, objectPath: string, photo: Photo, skipped: seq<Skip>,
                     ghost at: M.Run, ghost before: seq<Config>)
    returns (settled: Option<ShareOutcome>, ghost path: seq<Config>, ghost r: M.Run)
    requires at.gtin14 == gtin14 && at.objectPath == objectPath && at.photo == photo && at.skipped == skipped
    requires at.pc.Retry? && At(ports, before, at)
    modifies ports`calls, ports`bucket
    ensures At(ports, path, r) && Continues(ports, before, path, old(ports.calls))
    ensures r == at.(pc := match settled case Some(outcome) => M.Done(outcome) case None => M.InsertOwn)
  {
    var exists_ := ports.UploadShared(objectPath, photo);
    settled := if exists_ then Some(ShareOutcome(AlreadyShared, gtin14, None, None, false, skipped)) else None;
    r := at.(pc := if exists_ then M.Done(settled.value) else M.InsertOwn);
    path := Extend(ports.platform, ports.sources, before, Config(ports.Snapshot(), r));
  }

  /** Put the chosen candidate's copy in place. `at` is the machine, about to upload. */
  method Place(ports: Ports, gtin14: string, c: Candidate, photo: Photo, sha256: string, skipped: seq<Skip>,
               ghost at: M.Run, ghost before: seq<Config>)
    returns (outcome: ShareOutcome, ghost path: seq<Config>)
    requires SameLocals(at, gtin14, c, photo, sha256, skipped)
    requires at.pc.Upload? && At(ports, before, at)
    modifies ports`calls, ports`bucket, ports`rows
    ensures exists r :: At(ports, path, r) && r.pc == M.Done(outcome)
    ensures Continues(ports, before, path, old(ports.calls))
  {
    var exists_ := ports.UploadShared(SharedObjectPath(gtin14, photo.contentType).value, photo);
    ghost var r := at.(pc := if exists_ then M.Recheck else M.InsertOwn);
    path := Extend(ports.platform, ports.sources, before, Config(ports.Snapshot(), r));
    if exists_ {
      var settled: Option<ShareOutcome>;
      settled, path, r := ResolveExisting(ports, gtin14, c, photo, sha256, skipped, r, path);
      if settled.Some? {
        return settled.value, path;
      }
    }
    outcome, path := Settle(ports, gtin14, c, photo, sha256, skipped, r, path);
  }

  /**
   `shareFirstUnblocked`. It makes, port call by port call, the moves of the state
   machine, and so ends where the rule says.
   */
  method ShareFirstUnblocked(ports: Ports, gtin14: string, candidates: seq<Candidate>)
    returns (outcome: ShareOutcome, ghost path: seq<Config>)
    modifies ports`calls, ports`bucket, ports`rows
    ensures IsPath(ports.platform, ports.sources, path)
    ensures path[0] == Config(old(ports.Snapshot()), M.Begin(gtin14, candidates))
    ensures path[|path| - 1].s == ports.Snapshot() && path[|path| - 1].r.pc == M.Done(outcome)
    ensures (ports.Snapshot(), outcome)
         == Rule(ports.platform, ports.sources, old(ports.Snapshot()), gtin14, candidates)
    ensures ports.calls - old(ports.calls) == |path| - 1 <= 2 * |candidates| + 9
  {
    outcome, path := TryCandidates(ports, gtin14, candidates);
    PathIsRun(ports.platform, ports.sources, path);
    AloneFollowsRule(ports.platform, ports.sources, old(ports.Snapshot()), gtin14, candidates);
  }

  method TryCandidates(ports: Ports, gtin14: string, candidates: seq<Candidate>)
    returns (outcome: ShareOutcome, ghost path: seq<Config>)
    modifies ports`calls, ports`bucket, ports`rows
    ensures exists r :: At(ports, path, r) && r.pc == M.Done(outcome)
    ensures path[0] == Config(old(ports.Snapshot()), M.Begin(gtin14, candidates))
    ensures ports.calls - old(ports.calls) == |path| - 1
  {
    path := [Config(ports.Snapshot(), M.Begin(gtin14, candidates))];
    var skipped: seq<Skip> := [];
    var row := ports.SharedPhotoPath(gtin14);
    if row.Some? {
      outcome := ShareOutcome(AlreadyShared, gtin14, None, None, false, skipped);
      ghost var r := M.Begin(gtin14, candidates).(pc := M.Done(outcome));
      path := Extend(ports.platform, ports.sources, path, Config(ports.Snapshot(), r));
      assert At(ports, path, r);
      return;
    }
    var i := 0;
    ghost var r := M.NextCandidate(ports.platform, gtin14, candidates, skipped);
    path := Extend(ports.platform, ports.sources, path, Config(ports.Snapshot(), r));
    while i < |candidates|
      invariant 0 <= i <= |candidates|
      invariant At(ports, path, r) && r == M.NextCandidate(ports.platform, gtin14, candidates[i..], skipped)
      invariant path[0] == Config(old(ports.Snapshot()), M.Begin(gtin14, candidates))
      invariant ports.calls - old(ports.calls) == |path| - 1
    {
      var c := candidates[i];
      assert candidates[i..][1..] == candidates[i + 1..];
      i := i + 1;
      var photo: Option<Photo>, reason: SkipReason;
      photo, reason, path, r := Examine(ports, gtin14, c, skipped, candidates[i..], r, path);
      if photo.None? {
        skipped := skipped + [Skip(c.productId, reason)];
        continue;
      }
      outcome, path := Place(ports, gtin14, c, photo.value, ports.platform.sha256Hex(photo.value.bytes), skipped, r, path);
      return;
    }
    outcome := ShareOutcome(NothingToShare, gtin14, None, None, false, skipped);
  }

  /** One turn of the loop up to the upload: the photo to share, or why there is none. */
  method Examine(ports: Ports, gtin14: string, c: Candidate, skipped: seq<Skip>, todo: seq<Candidate>,
                 ghost at: M.Run, ghost before: seq<Config>)
    returns (photo: Option<Photo>, reason: SkipReason, ghost path: seq<Config>, ghost r: M.Run)
    requires At(ports, before, at) && at == M.NextCandidate(ports.platform, gtin14, [c] + todo, skipped)
    modifies ports`calls
    ensures At(ports, path, r) && Continues(ports, before, path, old(ports.calls))
    ensures match photo
      case Some(p) => r.pc.Upload? && SameLocals(r, gtin14, c, p, ports.platform.sha256Hex(p.bytes), skipped)
      case None => r == M.NextCandidate(ports.platform, gtin14, todo, skipped + [Skip(c.productId, reason)])
  {
    assert ([c] + todo)[1..] == todo;
    photo, reason, path, r := None, InvalidSource, before, at;
    var sourcePath := SourceObjectPath(ports.platform, c.imageUrl, c.businessId);
    if sourcePath.None? {
      return;
    }
    var source := ports.DownloadSource(sourcePath.value);
    r := M.SourceRead(ports.platform, r, source);
    path := Extend(ports.platform, ports.sources, path, Config(ports.Snapshot(), r));
    if source.None? {
      reason := SourceMissing;
      return;
    }
    if |source.value.bytes| > MAX_PHOTO_BYTES {
      reason := TooLarge;
      return;
    }
    var contentType := PhotoContentType(ports.platform, source.value);
    if contentType.None? {
      reason := UnsupportedType;
      return;
    }
    var sha256 := ports.platform.sha256Hex(source.value.bytes);
    var blocked := ports.IsBlocked(sha256);
    if blocked {
      reason := Blocked;
      r := M.SkipCandidate(ports.platform, r, Blocked);
    } else {
      photo := Some(Photo(source.value.bytes, contentType.value));
      r := r.(objectPath := SharedObjectPath(gtin14, contentType.value).value, pc := M.Upload);
    }
    path := Extend(ports.platform, ports.sources, path, Config(ports.Snapshot(), r));
  }
}
