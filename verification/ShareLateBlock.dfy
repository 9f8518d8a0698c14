/**
 Where "a blocked hash is never shared" (share.ts) fails: a run looks the hash of
 its photo up once, before the upload. A hash blocked after that look is still
 shared, and exactly the runs that may do so are named.
 */
module ShareLateBlock {
  import opened Prelude
  import opened SharePhoto
  import opened ShareMachine
  import opened ShareRaces
  import opened ShareOrphanRace
  import opened ShareBlocked

  /** The run looks its photo up; then the hash is blocked; then the run goes on. */
  function LateBlock(platform: Platform, g: string, c: Candidate, photo: Photo): Schedule {
    [Start(g, [c])]
      + (Calls(0, photo, 3) + ([Block(platform.sha256Hex(photo.bytes))] + (Calls(0, photo, 1) + Calls(0, photo, 2))))
  }

  /**
   The witness: one run alone, on an untouched barcode, reports "shared" and leaves a
   row whose hash is on the block list.
   */
  lemma LateBlockIsShared(platform: Platform, s: Store, g: string, c: Candidate, photo: Photo, contentType: string)
    requires IsGtin14(g) && g !in s.rows && Shareable(platform, s.blocked, c, photo, contentType)
    requires SharedObjectPath(g, contentType).value !in s.bucket
    ensures var w' := Exec(platform, World(s, []), LateBlock(platform, g, c, photo));
      && |w'.runs| == 1 && ReportsShared(w'.runs[0])
      && g in w'.store.rows && w'.store.rows[g].sha256 in w'.store.blocked
  {
    var h := platform.sha256Hex(photo.bytes);
    var ready := Named(platform, g, c, photo, contentType, "", Upload);
    var w0, w1 := World(s, [Begin(g, [c])]), World(s, [ready]);
    var late := Calls(0, photo, 1) + Calls(0, photo, 2);
    ExecConcat(platform, World(s, []), [Start(g, [c])], Calls(0, photo, 3) + ([Block(h)] + late));
    assert Exec(platform, World(s, []), [Start(g, [c])]) == w0;
    ExecConcat(platform, w0, Calls(0, photo, 3), [Block(h)] + late);
    assert Exec(platform, w0, Calls(0, photo, 3)) == w1 by {
      ReachesUpload(platform, s, g, c, photo, contentType);
      CallsRunAlone(platform, w0, 0, photo, 3);
      assert [Begin(g, [c])][0 := ready] == [ready];
    }
    assert ([Block(h)] + late)[1..] == late;
    EndsShared(platform, s.(blocked := s.blocked + {h}), ready, photo);
  }

  lemma EndsShared(platform: Platform, s: Store, r: Run, photo: Photo)
    requires r.pc.Upload? && r.gtin14 !in s.rows && r.objectPath !in s.bucket
    ensures var w' := Exec(platform, World(s, [r]), Calls(0, photo, 1) + Calls(0, photo, 2));
      && |w'.runs| == 1 && ReportsShared(w'.runs[0]) && w'.store.blocked == s.blocked
      && r.gtin14 in w'.store.rows && w'.store.rows[r.gtin14].sha256 == r.sha256
  {
    var r1, s1 := r.(pc := InsertOwn), UploadShared(s, r.objectPath, r.photo);
    ExecConcat(platform, World(s, [r]), Calls(0, photo, 1), Calls(0, photo, 2));
    CallsRunAlone(platform, World(s, [r]), 0, photo, 1);
    assert RunAlone(platform, s, r, Always(photo), 0) == (s, r);
    assert [r][0 := r1] == [r1];
    TakesRow(platform, s1, r1, photo);
    CallsRunAlone(platform, World(s1, [r1]), 0, photo, 2);
  }

  // ---------------------------------------------------------------- the exact condition

  /** No continuation inserts a row that carries `h` or names an object with it. */
  ghost predicate NeverShares(platform: Platform, w: World, before: set<string>, h: string) {
    forall schedule :: NotShared(platform, Exec(platform, w, schedule).store, before, h)
  }

  lemma SharesAfter(platform: Platform, w: World, first: Schedule, before: set<string>, h: string)
    requires !NeverShares(platform, Exec(platform, w, first), before, h)
    ensures !NeverShares(platform, w, before, h)
  {
    var rest :| !NotShared(platform, Exec(platform, Exec(platform, w, first), rest).store, before, h);
    ExecConcat(platform, w, first, rest);
    assert !NotShared(platform, Exec(platform, w, first + rest).store, before, h);
  }

  lemma SharesNext(platform: Platform, w: World, a: Action, before: set<string>, h: string)
    requires !NeverShares(platform, Act(platform, w, a), before, h)
    ensures !NeverShares(platform, w, before, h)
  {
    assert [a][1..] == [];
    assert Exec(platform, w, [a]) == Act(platform, w, a);
    SharesAfter(platform, w, [a], before, h);
  }

  /** Run `i` stands at a point from which it may share `h`, for a barcode without a row. */
  predicate Loose(w: World, i: nat, before: set<string>) {
    i < |w.runs| && w.runs[i].gtin14 !in before && w.runs[i].gtin14 !in w.store.rows
  }

  lemma InsertShares(platform: Platform, w: World, i: nat, before: set<string>, h: string)
    requires Loose(w, i, before)
    requires var r := w.runs[i];
      || (r.pc.InsertOwn? && (r.sha256 == h || HasAt(platform, w.store, r.objectPath, h)))
      || (r.pc.InsertOrphan? && (r.orphanSha == h || HasAt(platform, w.store, r.objectPath, h)))
    ensures !NeverShares(platform, w, before, h)
  {
    var r, w1 := w.runs[i], Act(platform, w, Call(i, None));
    assert [Call(i, None)][1..] == [];
    assert Exec(platform, w, [Call(i, None)]) == w1;
    assert w1.store.bucket == w.store.bucket && r.gtin14 in w1.store.rows;
    assert w1.store.rows[r.gtin14].objectPath == r.objectPath;
    assert !NotShared(platform, w1.store, before, h);
  }

  /** With the name free, a run about to upload uploads and inserts. */
  lemma UploadShares(platform: Platform, w: World, i: nat, before: set<string>, h: string)
    requires Loose(w, i, before) && w.runs[i].objectPath !in w.store.bucket && w.runs[i].sha256 == h
    requires w.runs[i].pc.Upload? || w.runs[i].pc.Retry?
    ensures !NeverShares(platform, w, before, h)
  {
    var w1 := Act(platform, w, Call(i, None));
    assert w1.runs[i] == w.runs[i].(pc := InsertOwn) && w1.store.rows == w.store.rows;
    InsertShares(platform, w1, i, before, h);
    SharesNext(platform, w, Call(i, None), before, h);
  }

  lemma RemoveShares(platform: Platform, w: World, i: nat, before: set<string>, h: string)
    requires Loose(w, i, before) && w.runs[i].pc.RemoveOrphan? && w.runs[i].sha256 == h
    ensures !NeverShares(platform, w, before, h)
  {
    var w1 := Act(platform, w, Call(i, None));
    assert w1.runs[i] == w.runs[i].(pc := Retry) && w1.store == RemoveShared(w.store, w.runs[i].objectPath);
    UploadShares(platform, w1, i, before, h);
    SharesNext(platform, w, Call(i, None), before, h);
  }

  /** The object it found is blocked as well, so the run replaces it with its own. */
  lemma CheckShares(platform: Platform, w: World, i: nat, before: set<string>, h: string)
    requires Loose(w, i, before) && w.runs[i].pc.CheckOrphan? && w.runs[i].sha256 == h
    ensures !NeverShares(platform, w, before, h)
  {
    var r := w.runs[i];
    var w1 := Act(platform, w, Block(r.orphanSha));
    var w2 := Act(platform, w1, Call(i, None));
    assert w1.runs == w.runs && w1.store.rows == w.store.rows && r.orphanSha in w1.store.blocked;
    assert w2.runs[i] == r.(pc := RemoveOrphan) && w2.store == w1.store;
    RemoveShares(platform, w2, i, before, h);
    SharesNext(platform, w1, Call(i, None), before, h);
    SharesNext(platform, w, Block(r.orphanSha), before, h);
  }

  lemma ReadShares(platform: Platform, w: World, i: nat, before: set<string>, h: string)
    requires Loose(w, i, before) && w.runs[i].pc.ReadOrphan? && w.runs[i].sha256 == h
    ensures !NeverShares(platform, w, before, h)
  {
    var r, w1 := w.runs[i], Act(platform, w, Call(i, None));
    assert w1.store == w.store;
    if r.objectPath in w.store.bucket {
      assert w1.runs[i].pc.CheckOrphan? && w1.runs[i].gtin14 == r.gtin14 && w1.runs[i].sha256 == h;
      CheckShares(platform, w1, i, before, h);
    } else {
      assert w1.runs[i] == r.(pc := Retry);
      UploadShares(platform, w1, i, before, h);
    }
    SharesNext(platform, w, Call(i, None), before, h);
  }

  lemma RecheckShares(platform: Platform, w: World, i: nat, before: set<string>, h: string)
    requires Loose(w, i, before) && w.runs[i].pc.Recheck? && w.runs[i].sha256 == h
    ensures !NeverShares(platform, w, before, h)
  {
    var w1 := Act(platform, w, Call(i, None));
    assert w1.runs[i] == w.runs[i].(pc := ReadOrphan) && w1.store == w.store;
    ReadShares(platform, w1, i, before, h);
    SharesNext(platform, w, Call(i, None), before, h);
  }

  lemma CollisionShares(platform: Platform, w: World, i: nat, before: set<string>, h: string)
    requires Loose(w, i, before) && w.runs[i].pc.Upload? && w.runs[i].sha256 == h
    ensures !NeverShares(platform, w, before, h)
  {
    if w.runs[i].objectPath in w.store.bucket {
      var w1 := Act(platform, w, Call(i, None));
      assert w1.runs[i] == w.runs[i].(pc := Recheck) && w1.store == w.store;
      RecheckShares(platform, w1, i, before, h);
      SharesNext(platform, w, Call(i, None), before, h);
    } else {
      UploadShares(platform, w, i, before, h);
    }
  }

  /** A new run finds the object at the name blocked and removes it, in eight calls. */
  lemma NewRunRemoves(platform: Platform, w: World, g: string, c: Candidate, photo: Photo, contentType: string)
    requires IsGtin14(g) && g !in w.store.rows && Shareable(platform, w.store.blocked, c, photo, contentType)
    requires HasBlocked(platform, w.store, SharedObjectPath(g, contentType).value)
    ensures var end := Exec(platform, w, [Start(g, [c])] + Calls(|w.runs|, photo, 8));
      && w.runs <= end.runs
      && end.store == RemoveShared(w.store, SharedObjectPath(g, contentType).value)
  {
    var n, w1 := |w.runs|, Act(platform, w, Start(g, [c]));
    var p := SharedObjectPath(g, contentType).value;
    assert ([Start(g, [c])] + Calls(n, photo, 8))[1..] == Calls(n, photo, 8);
    assert w1 == World(w.store, w.runs + [Begin(g, [c])]);
    FindsBlockedOrphan(platform, w.store, g, c, photo, contentType);
    CallsRunAlone(platform, w1, n, photo, 8);
    assert RunAlone(platform, w.store, Begin(g, [c]), Always(photo), 8).0 == RemoveShared(w.store, p);
  }

  predicate HasBlocked(platform: Platform, s: Store, p: string) {
    p in s.bucket && platform.sha256Hex(s.bucket[p].bytes) in s.blocked
  }

  /** A run about to retry shares too, once somebody has removed what is in its way. */
  lemma RetryShares(platform: Platform, w: World, i: nat, before: set<string>, h: string, rivals: string -> Pair)
    requires Loose(w, i, before) && w.runs[i].pc.Retry? && w.runs[i].sha256 == h
    requires Formed(platform, w.runs[i]) && Rivals(platform, w.store.blocked, rivals)
    ensures !NeverShares(platform, w, before, h)
  {
    var r := w.runs[i];
    if r.objectPath in w.store.bucket {
      var t :| t in NAMED_TYPES && SharedObjectPath(r.gtin14, t) == Some(r.objectPath);
      var pair, x := rivals(t), HashAt(platform, w.store, r.objectPath);
      if platform.sha256Hex(pair.photo1.bytes) != x {
        RetryAfterRemoval(platform, w, i, before, h, pair.c1, pair.photo1, t);
      } else {
        RetryAfterRemoval(platform, w, i, before, h, pair.c2, pair.photo2, t);
      }
    } else {
      UploadShares(platform, w, i, before, h);
    }
  }

  lemma RetryAfterRemoval(
    platform: Platform, w: World, i: nat, before: set<string>, h: string, c: Candidate, photo: Photo, t: string)
    requires Loose(w, i, before) && w.runs[i].pc.Retry? && w.runs[i].sha256 == h
    requires IsGtin14(w.runs[i].gtin14) && SharedObjectPath(w.runs[i].gtin14, t) == Some(w.runs[i].objectPath)
    requires w.runs[i].objectPath in w.store.bucket && Shareable(platform, w.store.blocked, c, photo, t)
    requires platform.sha256Hex(photo.bytes) != HashAt(platform, w.store, w.runs[i].objectPath)
    ensures !NeverShares(platform, w, before, h)
  {
    var r, x := w.runs[i], HashAt(platform, w.store, w.runs[i].objectPath);
    var w1 := Act(platform, w, Block(x));
    var removal := [Start(r.gtin14, [c])] + Calls(|w.runs|, photo, 8);
    NewRunRemoves(platform, w1, r.gtin14, c, photo, t);
    var w2 := Exec(platform, w1, removal);
    assert w2.runs[i] == r;
    UploadShares(platform, w2, i, before, h);
    SharesAfter(platform, w1, removal, before, h);
    SharesNext(platform, w, Block(x), before, h);
  }

  /** The object it found is not looked up again once the look was passed. */
  lemma PassedOrphanShares(platform: Platform, w: World, i: nat, before: set<string>, h: string)
    requires Loose(w, i, before) && w.runs[i].pc.CheckOrphan?
    requires w.runs[i].orphanSha !in w.store.blocked && HasAt(platform, w.store, w.runs[i].objectPath, h)
    ensures !NeverShares(platform, w, before, h)
  {
    var w1 := Act(platform, w, Call(i, None));
    assert w1.runs[i] == w.runs[i].(pc := InsertOrphan) && w1.store == w.store;
    InsertShares(platform, w1, i, before, h);
    SharesNext(platform, w, Call(i, None), before, h);
  }

  lemma MayShareShares(platform: Platform, w: World, i: nat, before: set<string>, h: string, rivals: string -> Pair)
    requires Loose(w, i, before) && Formed(platform, w.runs[i]) && MayShare(platform, w.store, w.runs[i], h)
    requires Rivals(platform, w.store.blocked, rivals)
    ensures !NeverShares(platform, w, before, h)
  {
    match w.runs[i].pc
    case Upload => CollisionShares(platform, w, i, before, h);
    case Recheck => RecheckShares(platform, w, i, before, h);
    case ReadOrphan => ReadShares(platform, w, i, before, h);
    case CheckOrphan =>
      if w.runs[i].sha256 == h {
        CheckShares(platform, w, i, before, h);
      } else {
        PassedOrphanShares(platform, w, i, before, h);
      }
    case InsertOrphan => InsertShares(platform, w, i, before, h);
    case RemoveOrphan => RemoveShares(platform, w, i, before, h);
    case Retry => RetryShares(platform, w, i, before, h, rivals);
    case InsertOwn => InsertShares(platform, w, i, before, h);
    case _ =>
  }

  /**
   The exact condition. At any moment with `h` on the block list, no continuation
   shares it under a barcode without a row if and only if no run of such a barcode has
   got past its look-up of `h`: with its own photo, or with the object it found.
   */
  lemma BlockedFromNowOnExactlyWhen(platform: Platform, w: World, h: string, rivals: string -> Pair)
    requires h in w.store.blocked && Rivals(platform, w.store.blocked, rivals)
    requires forall i :: 0 <= i < |w.runs| ==> Formed(platform, w.runs[i])
    ensures NeverShares(platform, w, w.store.rows.Keys, h)
            <==> forall i :: 0 <= i < |w.runs| && w.runs[i].gtin14 !in w.store.rows ==>
                   !MayShare(platform, w.store, w.runs[i], h)
  {
    var before := w.store.rows.Keys;
    if i :| 0 <= i < |w.runs| && w.runs[i].gtin14 !in w.store.rows && MayShare(platform, w.store, w.runs[i], h) {
      MayShareShares(platform, w, i, before, h, rivals);
    } else {
      forall schedule
        ensures NotShared(platform, Exec(platform, w, schedule).store, before, h)
      {
        ExecKeepsSafe(platform, w, schedule, before, h);
      }
    }
  }

  /** Every world that runs have reached from a store without runs is one the condition speaks about. */
  lemma {:induction false} RunsAreFormed(platform: Platform, w: World, schedule: Schedule)
    requires forall i :: 0 <= i < |w.runs| ==> Formed(platform, w.runs[i])
    ensures forall i :: 0 <= i < |Exec(platform, w, schedule).runs| ==> Formed(platform, Exec(platform, w, schedule).runs[i])
    decreases |schedule|
  {
    if schedule != [] {
      var a := schedule[0];
      if a.Call? && a.i < |w.runs| {
        StepIsFormed(platform, w.store, w.runs[a.i], a.source);
      }
      RunsAreFormed(platform, Act(platform, w, a), schedule[1..]);
    }
  }
}
