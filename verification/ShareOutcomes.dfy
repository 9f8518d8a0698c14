/**
 What a run answers, in every interleaving: which candidates it passed over and
 why, what each status means for its list, who adopted an orphan, and what the
 bucket can come to hold.
 */
module ShareOutcomes {
  import opened Prelude
  import opened SharePhoto
  import opened ShareMachine

  // ---------------------------------------------------------------- the list of skips

  /** One skip for each of the first candidates, in order; a URL that leads nowhere is the reason exactly if it does not. */
  predicate SkippedFirst(platform: Platform, skipped: seq<Skip>, cs: seq<Candidate>) {
    && |skipped| <= |cs|
    && forall j :: 0 <= j < |skipped| ==>
         && skipped[j].productId == cs[j].productId
         && (skipped[j].reason == InvalidSource <==> SourceObjectPath(platform, cs[j].imageUrl, cs[j].businessId).None?)
  }

  /** The run works on the first candidate it has not skipped. */
  predicate OnCandidate(platform: Platform, cs: seq<Candidate>, r: Run) {
    var k := |r.skipped|;
    && k < |cs| && r.c == cs[k] && r.todo == cs[k + 1..]
    && SourceObjectPath(platform, r.c.imageUrl, r.c.businessId).Some?
  }

  /** What the answer of a run over `cs` says. */
  predicate Reports(platform: Platform, g: string, cs: seq<Candidate>, o: ShareOutcome) {
    && o.gtin14 == g && SkippedFirst(platform, o.skipped, cs)
    && match o.status
       case NothingToShare => |o.skipped| == |cs| && o.productId.None? && o.sha256.None? && !o.adoptedOrphan
       case AlreadyShared =>
         && (|o.skipped| < |cs| || o.skipped == [])
         && o.productId.None? && o.sha256.None?
         && (o.adoptedOrphan ==> |o.skipped| < |cs|)
       case Shared =>
         && |o.skipped| < |cs| && o.productId == Some(cs[|o.skipped|].productId) && o.sha256.Some? && !o.adoptedOrphan
  }

  predicate Tracks(platform: Platform, g: string, cs: seq<Candidate>, r: Run) {
    && r.gtin14 == g && SkippedFirst(platform, r.skipped, cs)
    && match r.pc
       case CheckRow => r.todo == cs && r.skipped == []
       case Done(o) => Reports(platform, g, cs, o)
       case Crashed => true
       case _ => OnCandidate(platform, cs, r)
  }

  lemma {:induction false} NextCandidateTracks(
    platform: Platform, g: string, cs: seq<Candidate>, todo: seq<Candidate>, skipped: seq<Skip>)
    requires SkippedFirst(platform, skipped, cs) && todo == cs[|skipped|..]
    ensures Tracks(platform, g, cs, NextCandidate(platform, g, todo, skipped))
    ensures NextCandidate(platform, g, todo, skipped).pc.ReadSource? || NextCandidate(platform, g, todo, skipped).pc.Done?
    decreases |todo|
  {
    if todo != [] && SourceObjectPath(platform, todo[0].imageUrl, todo[0].businessId).None? {
      NextCandidateTracks(platform, g, cs, todo[1..], skipped + [Skip(todo[0].productId, InvalidSource)]);
    }
  }

  lemma SkipTracks(platform: Platform, g: string, cs: seq<Candidate>, r: Run, reason: SkipReason)
    requires r.gtin14 == g && SkippedFirst(platform, r.skipped, cs) && OnCandidate(platform, cs, r) && reason != InvalidSource
    ensures Tracks(platform, g, cs, SkipCandidate(platform, r, reason))
  {
    NextCandidateTracks(platform, g, cs, r.todo, r.skipped + [Skip(r.c.productId, reason)]);
  }

  lemma ReadTracks(platform: Platform, r: Run, source: Option<Photo>, g: string, cs: seq<Candidate>)
    requires Tracks(platform, g, cs, r) && r.pc.ReadSource?
    ensures Tracks(platform, g, cs, SourceRead(platform, r, source))
  {
    SkipTracks(platform, g, cs, r, SourceMissing);
    SkipTracks(platform, g, cs, r, TooLarge);
    SkipTracks(platform, g, cs, r, UnsupportedType);
  }

  lemma PlacingTracks(platform: Platform, s: Store, r: Run, source: Option<Photo>, g: string, cs: seq<Candidate>)
    requires Tracks(platform, g, cs, r) && !Searching(r)
    ensures Tracks(platform, g, cs, Step(platform, s, r, source).1)
  {
  }

  lemma StepTracks(platform: Platform, s: Store, r: Run, source: Option<Photo>, g: string, cs: seq<Candidate>)
    requires Tracks(platform, g, cs, r)
    ensures Tracks(platform, g, cs, Step(platform, s, r, source).1)
  {
    match r.pc
    case CheckRow => NextCandidateTracks(platform, g, cs, r.todo, r.skipped);
    case ReadSource => ReadTracks(platform, r, source, g, cs);
    case CheckBlock => SkipTracks(platform, g, cs, r, Blocked);
    case _ => PlacingTracks(platform, s, r, source, g, cs);
  }

  lemma {:induction false} ExecTracks(
    platform: Platform, w: World, schedule: Schedule, i: nat, g: string, cs: seq<Candidate>)
    requires i < |w.runs| && Tracks(platform, g, cs, w.runs[i])
    ensures i < |Exec(platform, w, schedule).runs| && Tracks(platform, g, cs, Exec(platform, w, schedule).runs[i])
    decreases |schedule|
  {
    if schedule != [] {
      var a := schedule[0];
      if a.Call? && a.i == i {
        StepTracks(platform, w.store, w.runs[i], a.source, g, cs);
      }
      ExecTracks(platform, Act(platform, w, a), schedule[1..], i, g, cs);
    }
  }

  /**
   In every interleaving, a run started with `cs` that has returned passed over the
   candidates in order, one skip for each: all of them if it found nothing to share,
   and a proper part, or none at all, if it says the barcode is shared. What it says
   it shared is the next candidate.
   */
  lemma OutcomesSay(platform: Platform, w: World, g: string, cs: seq<Candidate>, schedule: Schedule)
    requires IsGtin14(g)
    ensures var w' := Exec(platform, w, [Start(g, cs)] + schedule);
      && |w.runs| < |w'.runs|
      && (w'.runs[|w.runs|].pc.Done? ==> Reports(platform, g, cs, w'.runs[|w.runs|].pc.outcome))
  {
    var started := Act(platform, w, Start(g, cs));
    assert ([Start(g, cs)] + schedule)[1..] == schedule;
    ExecTracks(platform, started, schedule, |w.runs|, g, cs);
  }

  // ---------------------------------------------------------------- the reason for a skip

  lemma {:induction false} NextCandidateExtends(platform: Platform, g: string, todo: seq<Candidate>, skipped: seq<Skip>)
    ensures skipped <= NextCandidate(platform, g, todo, skipped).skipped
    decreases |todo|
  {
    if todo != [] {
      NextCandidateExtends(platform, g, todo[1..], skipped + [Skip(todo[0].productId, InvalidSource)]);
    }
  }

  /** The port call passes the candidate over. */
  predicate Skips(r: Run, r': Run) { |r'.skipped| > |r.skipped| }

  /** The port call passes the candidate over for this reason. */
  predicate SkipsFor(r: Run, r': Run, reason: SkipReason) {
    && Skips(r, r') && r'.skipped[..|r.skipped|] == r.skipped
    && r'.skipped[|r.skipped|] == Skip(r.c.productId, reason)
  }

  lemma SkipIsNoted(platform: Platform, r: Run, reason: SkipReason)
    ensures SkipsFor(r, SkipCandidate(platform, r, reason), reason)
  {
    var skipped := r.skipped + [Skip(r.c.productId, reason)];
    NextCandidateExtends(platform, r.gtin14, r.todo, skipped);
    var all := SkipCandidate(platform, r, reason).skipped;
    assert all[..|r.skipped|] == skipped[..|r.skipped|] && all[|r.skipped|] == skipped[|r.skipped|];
  }

  /** The answer of the download decides: missing, larger than 5 MB, of no known type, or taken with its hash. */
  lemma ReadTellsWhy(platform: Platform, s: Store, r: Run, source: Option<Photo>)
    requires r.pc.ReadSource?
    ensures var r' := Step(platform, s, r, source).1;
      if source.None? then SkipsFor(r, r', SourceMissing)
      else if |source.value.bytes| > 5242880 then SkipsFor(r, r', TooLarge)
      else if PhotoContentType(platform, source.value).None? then SkipsFor(r, r', UnsupportedType)
      else
        && !Skips(r, r') && r'.pc.CheckBlock?
        && r'.photo == Photo(source.value.bytes, PhotoContentType(platform, source.value).value)
        && r'.sha256 == platform.sha256Hex(source.value.bytes)
  {
    SkipIsNoted(platform, r, SourceMissing);
    SkipIsNoted(platform, r, TooLarge);
    SkipIsNoted(platform, r, UnsupportedType);
  }

  /** A photo is passed over as blocked exactly if its hash is on the list at that moment. */
  lemma CheckTellsWhy(platform: Platform, s: Store, r: Run, source: Option<Photo>)
    requires r.pc.CheckBlock? && Extension(r.photo.contentType).Some?
    ensures var r' := Step(platform, s, r, source).1;
      if r.sha256 in s.blocked then SkipsFor(r, r', Blocked) else !Skips(r, r') && r'.pc.Upload?
  {
    SkipIsNoted(platform, r, Blocked);
  }

  // ---------------------------------------------------------------- who adopted an orphan

  /** Action k of the schedule is run `i` recording the object it found. */
  predicate RecordsOrphan(platform: Platform, w: World, schedule: Schedule, i: nat, k: nat) {
    && k < |schedule| && schedule[k].Call? && schedule[k].i == i
    && var before := Exec(platform, w, schedule[..k]); i < |before.runs| && before.runs[i].pc.InsertOrphan?
  }

  predicate SaysAdopted(r: Run) { r.pc.Done? && r.pc.outcome.adoptedOrphan }

  lemma {:induction false} NextCandidateAdoptsNothing(platform: Platform, g: string, todo: seq<Candidate>, skipped: seq<Skip>)
    ensures !SaysAdopted(NextCandidate(platform, g, todo, skipped))
    decreases |todo|
  {
    if todo != [] {
      NextCandidateAdoptsNothing(platform, g, todo[1..], skipped + [Skip(todo[0].productId, InvalidSource)]);
    }
  }

  lemma StepAdopts(platform: Platform, s: Store, r: Run, source: Option<Photo>)
    requires !r.Finished()
    ensures SaysAdopted(Step(platform, s, r, source).1) <==> r.pc.InsertOrphan?
  {
    match r.pc
    case CheckRow => NextCandidateAdoptsNothing(platform, r.gtin14, r.todo, r.skipped);
    case ReadSource =>
      forall reason { NextCandidateAdoptsNothing(platform, r.gtin14, r.todo, r.skipped + [Skip(r.c.productId, reason)]); }
    case CheckBlock => NextCandidateAdoptsNothing(platform, r.gtin14, r.todo, r.skipped + [Skip(r.c.productId, Blocked)]);
    case _ =>
  }

  lemma FinishedRecordsNothing(platform: Platform, w: World, schedule: Schedule, i: nat)
    requires i < |w.runs| && w.runs[i].Finished()
    ensures forall k :: !RecordsOrphan(platform, w, schedule, i, k)
  {
    forall k: nat | k < |schedule|
      ensures !RecordsOrphan(platform, w, schedule, i, k)
    {
      FinishedStays(platform, w, schedule[..k], i);
    }
  }

  /** Action k of the rest is action k + 1 of the whole. */
  lemma RecordsLater(platform: Platform, w: World, schedule: Schedule, i: nat, k: nat)
    requires schedule != []
    ensures RecordsOrphan(platform, Act(platform, w, schedule[0]), schedule[1..], i, k)
            <==> RecordsOrphan(platform, w, schedule, i, k + 1)
  {
    if k < |schedule| - 1 {
      assert schedule[..k + 1][1..] == schedule[1..][..k];
    }
  }

  /** In every interleaving a run says it adopted an orphan exactly if it made the insert that records one. */
  lemma {:induction false} AdoptedExactlyWhen(platform: Platform, w: World, schedule: Schedule, i: nat)
    requires i < |w.runs| && !w.runs[i].Finished()
    ensures i < |Exec(platform, w, schedule).runs|
    ensures Exec(platform, w, schedule).runs[i].pc.Done? ==>
              (Exec(platform, w, schedule).runs[i].pc.outcome.adoptedOrphan
               <==> exists k :: RecordsOrphan(platform, w, schedule, i, k))
    decreases |schedule|
  {
    if schedule != [] {
      var a, rest, w1 := schedule[0], schedule[1..], Act(platform, w, schedule[0]);
      assert Exec(platform, w, schedule[..0]) == w;
      if a.Call? && a.i == i {
        StepAdopts(platform, w.store, w.runs[i], a.source);
      }
      if w1.runs[i].Finished() {
        FinishedStays(platform, w1, rest, i);
        FinishedRecordsNothing(platform, w1, rest, i);
      } else {
        AdoptedExactlyWhen(platform, w1, rest, i);
      }
      assert RecordsOrphan(platform, w, schedule, i, 0) <==> a.Call? && a.i == i && w.runs[i].pc.InsertOrphan?;
      forall k: nat
        ensures RecordsOrphan(platform, w, schedule, i, k) <==>
                  (k == 0 && a.Call? && a.i == i && w.runs[i].pc.InsertOrphan?)
                  || (k > 0 && RecordsOrphan(platform, w1, rest, i, k - 1))
      {
        if k > 0 {
          RecordsLater(platform, w, schedule, i, k - 1);
        }
      }
      if k: nat :| RecordsOrphan(platform, w1, rest, i, k) {
        assert RecordsOrphan(platform, w, schedule, i, k + 1);
      }
    }
  }

  // ---------------------------------------------------------------- what the bucket can hold

  /** A photo the shared bucket takes: at most 5 MB, of one of five types, and of the type its bytes say, if they do. */
  predicate Fit(photo: Photo) {
    && |photo.bytes| <= 5242880
    && photo.contentType in {"image/jpeg", "image/png", "image/webp", "image/heic", "image/heif"}
    && (SniffContentType(photo.bytes).Some? ==> Some(photo.contentType) == SniffContentType(photo.bytes))
  }

  predicate FitAt(p: string, photo: Photo) {
    Fit(photo) && IsGtin14(GtinOf(p)) && SharedObjectPath(GtinOf(p), photo.contentType) == Some(p)
  }

  predicate FitRun(r: Run) {
    IsGtin14(r.gtin14) &&
    match r.pc
    case CheckRow => true
    case ReadSource => true
    case CheckBlock => Fit(r.photo)
    case Done(_) => true
    case Crashed => true
    case _ => FitAt(r.objectPath, r.photo)
  }

  /** Every object is one of the old ones or fits its name. */
  ghost predicate FitBucket(old_: map<string, Photo>, s: Store) {
    forall p :: p in s.bucket ==> (p in old_ && s.bucket[p] == old_[p]) || FitAt(p, s.bucket[p])
  }

  lemma ReadIsFit(platform: Platform, photo: Photo)
    requires |photo.bytes| <= 5242880 && PhotoContentType(platform, photo).Some?
    ensures Fit(Photo(photo.bytes, PhotoContentType(platform, photo).value))
  {
  }

  /** Naming a fit photo makes it fit its name. */
  lemma NamedIsFit(g: string, photo: Photo)
    requires IsGtin14(g) && Fit(photo)
    ensures SharedObjectPath(g, photo.contentType).Some? && FitAt(SharedObjectPath(g, photo.contentType).value, photo)
  {
    PathBelongsToGtin(g, photo.contentType);
  }

  lemma StepKeepsRunFit(platform: Platform, s: Store, r: Run, source: Option<Photo>)
    requires FitRun(r)
    ensures FitRun(Step(platform, s, r, source).1)
  {
    match r.pc
    case CheckRow => NextCandidateFrame(platform, r.gtin14, r.todo, r.skipped);
    case ReadSource =>
      forall reason { NextCandidateFrame(platform, r.gtin14, r.todo, r.skipped + [Skip(r.c.productId, reason)]); }
      if source.Some? && |source.value.bytes| <= MAX_PHOTO_BYTES && PhotoContentType(platform, source.value).Some? {
        ReadIsFit(platform, source.value);
      }
    case CheckBlock =>
      NextCandidateFrame(platform, r.gtin14, r.todo, r.skipped + [Skip(r.c.productId, Blocked)]);
      NamedIsFit(r.gtin14, r.photo);
    case _ =>
  }

  lemma StepKeepsBucketFit(platform: Platform, s: Store, r: Run, source: Option<Photo>, old_: map<string, Photo>)
    requires FitRun(r) && FitBucket(old_, s)
    ensures FitBucket(old_, Step(platform, s, r, source).0)
  {
    var s' := Step(platform, s, r, source).0;
    forall p | p in s'.bucket
      ensures (p in old_ && s'.bucket[p] == old_[p]) || FitAt(p, s'.bucket[p])
    {
      assert (p in s.bucket && s'.bucket[p] == s.bucket[p])
        || ((r.pc.Upload? || r.pc.Retry?) && p == r.objectPath && s'.bucket[p] == r.photo);
    }
  }

  ghost predicate AllFit(old_: map<string, Photo>, w: World) {
    FitBucket(old_, w.store) && forall i :: 0 <= i < |w.runs| ==> FitRun(w.runs[i])
  }

  lemma {:induction false} ExecKeepsFit(platform: Platform, w: World, schedule: Schedule, old_: map<string, Photo>)
    requires AllFit(old_, w)
    ensures AllFit(old_, Exec(platform, w, schedule))
    decreases |schedule|
  {
    if schedule != [] {
      var a := schedule[0];
      if a.Call? && a.i < |w.runs| {
        StepKeepsRunFit(platform, w.store, w.runs[a.i], a.source);
        StepKeepsBucketFit(platform, w.store, w.runs[a.i], a.source, old_);
      }
      ExecKeepsFit(platform, Act(platform, w, a), schedule[1..], old_);
    }
  }

  /**
   In every interleaving, whatever the shops' photos are: an object that was not in
   the bucket before is at most 5 MB, has one of the five types, the one its bytes say
   if they say one, and is named by its barcode and that type.
   */
  lemma OnlyFitPhotos(platform: Platform, s: Store, schedule: Schedule, p: string)
    requires p in Exec(platform, World(s, []), schedule).store.bucket
    ensures var photo := Exec(platform, World(s, []), schedule).store.bucket[p];
      (p in s.bucket && photo == s.bucket[p]) || FitAt(p, photo)
  {
    ExecKeepsFit(platform, World(s, []), schedule, s.bucket);
  }
}
