/**
 `shareFirstUnblocked` as a state machine. A run is the function's local
 variables plus a program counter; one step is one port call together with the
 local code up to the next port call, so any interleaving of runs is an
 interleaving of steps.
 */
module ShareMachine {
  import opened Prelude
  import opened SharePhoto

  /** What the ports read and write: the shared bucket, the row table, the block list. */
  datatype Store = Store(
    bucket: map<string, Photo>,
    rows: map<string, SharedRow>,
    blocked: set<string>)

  /** Each constructor but the last two names the port call the run makes next. */
  datatype Pc =
    | CheckRow
    | ReadSource
    | CheckBlock
    | Upload
    | Recheck
    | ReadOrphan
    | CheckOrphan
    | InsertOrphan
    | RemoveOrphan
    | Retry
    | InsertOwn
    | CheckOwn
    | RemoveOwn
    | Done(outcome: ShareOutcome)
    | Crashed

  datatype Run = Run(
    gtin14: string,
    todo: seq<Candidate>,     // candidates the loop has not reached
    skipped: seq<Skip>,
    c: Candidate,             // the loop variable
    photo: Photo,
    sha256: string,
    objectPath: string,
    orphanSha: string,
    pc: Pc)
  {
    predicate Finished() { pc.Done? || pc.Crashed? }
  }

  /** A run between two candidates: the loop's block-scoped locals do not exist yet. */
  function Fresh(gtin14: string, todo: seq<Candidate>, skipped: seq<Skip>, c: Candidate, pc: Pc): Run {
    Run(gtin14, todo, skipped, c, Photo([], ""), "", "", "", pc)
  }

  function Begin(gtin14: string, candidates: seq<Candidate>): Run {
    Fresh(gtin14, candidates, [], Candidate("", "", ""), CheckRow)
  }

  function Outcome(r: Run, status: Status): ShareOutcome {
    ShareOutcome(status, r.gtin14, None, None, false, r.skipped)
  }

  function Finish(r: Run, status: Status): Run {
    r.(pc := Done(Outcome(r, status)))
  }

  /** The head of the loop: skip candidates without a usable URL up to the next download. */
  function NextCandidate(platform: Platform, gtin14: string, todo: seq<Candidate>, skipped: seq<Skip>): Run
    decreases |todo|
  {
    if todo == [] then Finish(Begin(gtin14, []).(skipped := skipped), NothingToShare)
    else if SourceObjectPath(platform, todo[0].imageUrl, todo[0].businessId).None?
    then NextCandidate(platform, gtin14, todo[1..], skipped + [Skip(todo[0].productId, InvalidSource)])
    else Fresh(gtin14, todo[1..], skipped, todo[0], ReadSource)
  }

  function SkipCandidate(platform: Platform, r: Run, reason: SkipReason): Run {
    NextCandidate(platform, r.gtin14, r.todo, r.skipped + [Skip(r.c.productId, reason)])
  }

  /** `downloadSource` answered `source`. */
  function SourceRead(platform: Platform, r: Run, source: Option<Photo>): Run {
    match source
    case None => SkipCandidate(platform, r, SourceMissing)
    case Some(photo) =>
      if |photo.bytes| > MAX_PHOTO_BYTES then SkipCandidate(platform, r, TooLarge)
      else
        match PhotoContentType(platform, photo)
        case None => SkipCandidate(platform, r, UnsupportedType)
        case Some(contentType) =>
          r.(photo := Photo(photo.bytes, contentType), sha256 := platform.sha256Hex(photo.bytes), pc := CheckBlock)
  }

  function SharedPhotoPath(s: Store, gtin14: string): Option<string> {
    if gtin14 in s.rows then Some(s.rows[gtin14].objectPath) else None
  }

  /** Upload with `upsert: false`. */
  function UploadShared(s: Store, path: string, photo: Photo): Store {
    if path in s.bucket then s else s.(bucket := s.bucket[path := photo])
  }

  function RemoveShared(s: Store, path: string): Store {
    s.(bucket := s.bucket - {path})
  }

  /** INSERT ... ON CONFLICT (gtin14) DO NOTHING. */
  function InsertSharedRow(s: Store, row: SharedRow): Store {
    if row.gtin14 in s.rows then s else s.(rows := s.rows[row.gtin14 := row])
  }

  /**
   One port call. `source` is the answer should the call be `downloadSource`: the
   source bucket belongs to the shops and may hold anything at any time.
   */
  function Step(platform: Platform, s: Store, r: Run, source: Option<Photo>): (Store, Run) {
    match r.pc
    case CheckRow =>
      (s, if SharedPhotoPath(s, r.gtin14).Some? then Finish(r, AlreadyShared) else NextCandidate(platform, r.gtin14, r.todo, r.skipped))
    case ReadSource => (s, SourceRead(platform, r, source))
    case CheckBlock =>
      if r.sha256 in s.blocked then (s, SkipCandidate(platform, r, Blocked))
      else
        (s, match SharedObjectPath(r.gtin14, r.photo.contentType)
            case Some(path) => r.(objectPath := path, pc := Upload)
            case None => r.(pc := Crashed))
    case Upload =>
      (UploadShared(s, r.objectPath, r.photo), r.(pc := if r.objectPath in s.bucket then Recheck else InsertOwn))
    case Recheck =>
      (s, if SharedPhotoPath(s, r.gtin14).Some? then Finish(r, AlreadyShared) else r.(pc := ReadOrphan))
    case ReadOrphan =>
      (s, if r.objectPath in s.bucket
          then r.(orphanSha := platform.sha256Hex(s.bucket[r.objectPath].bytes), pc := CheckOrphan)
          else r.(pc := Retry))
    case CheckOrphan => (s, r.(pc := if r.orphanSha in s.blocked then RemoveOrphan else InsertOrphan))
    case InsertOrphan =>
      (InsertSharedRow(s, SharedRow(r.gtin14, r.objectPath, r.orphanSha)),
       r.(pc := Done(Outcome(r, AlreadyShared).(adoptedOrphan := true))))
    case RemoveOrphan => (RemoveShared(s, r.objectPath), r.(pc := Retry))
    case Retry =>
      (UploadShared(s, r.objectPath, r.photo),
       if r.objectPath in s.bucket then Finish(r, AlreadyShared) else r.(pc := InsertOwn))
    case InsertOwn => (InsertSharedRow(s, SharedRow(r.gtin14, r.objectPath, r.sha256)), r.(pc := CheckOwn))
    case CheckOwn =>
      (s, if SharedPhotoPath(s, r.gtin14) != Some(r.objectPath) then r.(pc := RemoveOwn)
          else r.(pc := Done(Outcome(r, Shared).(productId := Some(r.c.productId), sha256 := Some(r.sha256)))))
    case RemoveOwn => (RemoveShared(s, r.objectPath), Finish(r, AlreadyShared))
    case Done(_) => (s, r)
    case Crashed => (s, r)
  }

  // ---------------------------------------------------------------- many runs

  datatype World = World(store: Store, runs: seq<Run>)

  /**
   What a scheduler can do: start a run, let run `i` make its next port call, kill
   run `i` (a thrown port call included), or block one more hash.
   */
  datatype Action =
    | Start(gtin14: string, candidates: seq<Candidate>)
    | Call(i: nat, source: Option<Photo>)
    | Crash(i: nat)
    | Block(sha256: string)

  function Act(platform: Platform, w: World, a: Action): World {
    match a
    case Start(g, candidates) => if IsGtin14(g) then w.(runs := w.runs + [Begin(g, candidates)]) else w
    case Call(i, source) =>
      if i < |w.runs| then
        var (s, r) := Step(platform, w.store, w.runs[i], source);
        World(s, w.runs[i := r])
      else w
    case Crash(i) =>
      if i < |w.runs| && !w.runs[i].Finished() then w.(runs := w.runs[i := w.runs[i].(pc := Crashed)]) else w
    case Block(h) => w.(store := w.store.(blocked := w.store.blocked + {h}))
  }

  type Schedule = seq<Action>

  function Exec(platform: Platform, w: World, schedule: Schedule): World
    decreases |schedule|
  {
    if schedule == [] then w else Exec(platform, Act(platform, w, schedule[0]), schedule[1..])
  }

  lemma {:induction false} ExecConcat(platform: Platform, w: World, a: Schedule, b: Schedule)
    ensures Exec(platform, w, a + b) == Exec(platform, Exec(platform, w, a), b)
    decreases |a|
  {
    if a == [] {
      assert a + b == b;
    } else {
      assert (a + b)[1..] == a[1..] + b;
      ExecConcat(platform, Act(platform, w, a[0]), a[1..], b);
    }
  }

  predicate FixedBlockList(schedule: Schedule) {
    forall k :: 0 <= k < |schedule| ==> !schedule[k].Block?
  }

  // ---------------------------------------------------------------- the search phase

  /** The loop head keeps the barcode and forgets the last candidate's object name. */
  lemma {:induction false} NextCandidateFrame(platform: Platform, g: string, todo: seq<Candidate>, skipped: seq<Skip>)
    ensures var r := NextCandidate(platform, g, todo, skipped);
      && r.gtin14 == g
      && r.objectPath == ""
      && (r.pc.ReadSource? || (r.pc.Done? && r.pc.outcome.status.NothingToShare?))
    decreases |todo|
  {
    if todo != [] {
      NextCandidateFrame(platform, g, todo[1..], skipped + [Skip(todo[0].productId, InvalidSource)]);
    }
  }

  /** The run is still looking for a photo it may share. */
  predicate Searching(r: Run) {
    r.pc.CheckRow? || r.pc.ReadSource? || r.pc.CheckBlock?
  }

  /** The photo in hand is typed and its hash is known. */
  predicate Hashed(platform: Platform, r: Run) {
    r.sha256 == platform.sha256Hex(r.photo.bytes) && Extension(r.photo.contentType).Some?
  }

  /** The run has used no object name yet, or one of its own barcode. */
  predicate OwnName(r: Run) {
    r.objectPath == "" || (GtinOf(r.objectPath) == r.gtin14 && IsSharedName(r.objectPath))
  }

  /** A run that searches, or has just stopped searching with a photo it may upload. */
  predicate SearchOk(platform: Platform, s: Store, r: Run) {
    && IsGtin14(r.gtin14)
    && OwnName(r)
    && match r.pc
       case CheckRow => true
       case ReadSource => true
       case CheckBlock => Hashed(platform, r)
       case Upload => Hashed(platform, r) && r.objectPath != "" && r.sha256 !in s.blocked
       case Done(o) => o.status.NothingToShare? || (o.status.AlreadyShared? && r.gtin14 in s.rows)
       case _ => false
  }

  /** Searching changes nothing in the store, and ends with an unblocked, named photo or without one. */
  lemma SearchStep(platform: Platform, s: Store, r: Run, source: Option<Photo>)
    requires Searching(r) && SearchOk(platform, s, r)
    ensures var (s', r') := Step(platform, s, r, source);
      && s' == s && r'.gtin14 == r.gtin14 && SearchOk(platform, s, r')
      && (r.pc.CheckRow? && !r'.pc.Done? ==> r.gtin14 !in s.rows)
      && !r'.pc.CheckRow?
  {
    match r.pc
    case CheckRow => NextCandidateFrame(platform, r.gtin14, r.todo, r.skipped);
    case ReadSource =>
      forall reason { NextCandidateFrame(platform, r.gtin14, r.todo, r.skipped + [Skip(r.c.productId, reason)]); }
    case CheckBlock =>
      NextCandidateFrame(platform, r.gtin14, r.todo, r.skipped + [Skip(r.c.productId, Blocked)]);
      PathBelongsToGtin(r.gtin14, r.photo.contentType);
  }

  // ---------------------------------------------------------------- consecutive steps of one run

  /** `n` port calls of one run with nobody else stepping; `answer` is the source bucket. */
  function RunAlone(platform: Platform, s: Store, r: Run, answer: Run -> Option<Photo>, n: nat): (Store, Run) {
    if n == 0 then (s, r)
    else
      var (s', r') := RunAlone(platform, s, r, answer, n - 1);
      Step(platform, s', r', answer(r'))
  }

  // ---------------------------------------------------------------- how many port calls

  /** An upper bound on the port calls a run has left. */
  function CallsLeft(r: Run): nat {
    match r.pc
    case CheckRow => 2 * |r.todo| + 10
    case ReadSource => 2 * |r.todo| + 11
    case CheckBlock => 2 * |r.todo| + 10
    case Upload => 9
    case Recheck => 8
    case ReadOrphan => 7
    case CheckOrphan => 6
    case RemoveOrphan => 5
    case Retry => 4
    case InsertOwn => 3
    case CheckOwn => 2
    case InsertOrphan => 1
    case RemoveOwn => 1
    case Done(_) => 0
    case Crashed => 0
  }

  lemma {:induction false} NextCandidateCalls(platform: Platform, g: string, todo: seq<Candidate>, skipped: seq<Skip>)
    ensures CallsLeft(NextCandidate(platform, g, todo, skipped)) <= 2 * |todo| + 9
    decreases |todo|
  {
    if todo != [] {
      NextCandidateCalls(platform, g, todo[1..], skipped + [Skip(todo[0].productId, InvalidSource)]);
    }
  }

  lemma StepSpendsCall(platform: Platform, s: Store, r: Run, source: Option<Photo>)
    requires !r.Finished()
    ensures CallsLeft(Step(platform, s, r, source).1) < CallsLeft(r)
  {
    match r.pc
    case CheckRow => NextCandidateCalls(platform, r.gtin14, r.todo, r.skipped);
    case ReadSource =>
      forall reason { NextCandidateCalls(platform, r.gtin14, r.todo, r.skipped + [Skip(r.c.productId, reason)]); }
    case CheckBlock => NextCandidateCalls(platform, r.gtin14, r.todo, r.skipped + [Skip(r.c.productId, Blocked)]);
    case _ =>
  }

  /** How often the schedule lets run `i` make a port call. */
  function CallsTo(schedule: Schedule, i: nat): nat {
    if schedule == [] then 0
    else (if schedule[0].Call? && schedule[0].i == i then 1 else 0) + CallsTo(schedule[1..], i)
  }

  lemma {:induction false} CallsAreSpent(platform: Platform, w: World, schedule: Schedule, i: nat)
    requires i < |w.runs|
    ensures i < |Exec(platform, w, schedule).runs|
    ensures var r' := Exec(platform, w, schedule).runs[i];
      r'.Finished() || CallsTo(schedule, i) + CallsLeft(r') <= CallsLeft(w.runs[i])
    decreases |schedule|
  {
    if schedule != [] {
      var a := schedule[0];
      if a.Call? && a.i == i && !w.runs[i].Finished() {
        StepSpendsCall(platform, w.store, w.runs[i], a.source);
      }
      CallsAreSpent(platform, Act(platform, w, a), schedule[1..], i);
      if w.runs[i].Finished() {
        FinishedStays(platform, w, schedule, i);
      }
    }
  }

  lemma {:induction false} FinishedStays(platform: Platform, w: World, schedule: Schedule, i: nat)
    requires i < |w.runs| && w.runs[i].Finished()
    ensures i < |Exec(platform, w, schedule).runs| && Exec(platform, w, schedule).runs[i] == w.runs[i]
    decreases |schedule|
  {
    if schedule != [] {
      FinishedStays(platform, Act(platform, w, schedule[0]), schedule[1..], i);
    }
  }

  /**
   In every interleaving, a run over n candidates has returned after at most
   2n + 10 of its own port calls, whatever the other runs, the crashes and the
   source bucket do in between.
   */
  lemma RunsTerminate(platform: Platform, w: World, g: string, candidates: seq<Candidate>, schedule: Schedule)
    requires IsGtin14(g)
    requires CallsTo(schedule, |w.runs|) >= 2 * |candidates| + 10
    ensures var w' := Exec(platform, w, [Start(g, candidates)] + schedule);
      |w.runs| < |w'.runs| && w'.runs[|w.runs|].Finished()
  {
    var started := Act(platform, w, Start(g, candidates));
    assert ([Start(g, candidates)] + schedule)[1..] == schedule;
    CallsAreSpent(platform, started, schedule, |w.runs|);
    assert Exec(platform, w, [Start(g, candidates)] + schedule) == Exec(platform, started, schedule);
  }
}
