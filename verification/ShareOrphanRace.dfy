/**
 Where the header's promise about races fails. An object without a row whose hash
 is blocked is removed and replaced; two overlapping runs that both found it can
 each remove and replace it, so that both report "shared" and the row keeps the
 hash of a photo that is no longer there. For a fixed block list this is the only
 way to break the agreement. A hash that is blocked while runs are under way can
 break it too, and exactly which moments are unsafe is the last theorem.
 */
module ShareOrphanRace {
  import opened Prelude
  import opened SharePhoto
  import opened ShareMachine
  import opened ShareRaces

  /** `photo`, at the address of candidate `c`, may be shared under `contentType`. */
  predicate Shareable(platform: Platform, blocked: set<string>, c: Candidate, photo: Photo, contentType: string) {
    && SourceObjectPath(platform, c.imageUrl, c.businessId).Some?
    && |photo.bytes| <= MAX_PHOTO_BYTES
    && PhotoContentType(platform, photo) == Some(contentType)
    && platform.sha256Hex(photo.bytes) !in blocked
  }

  /** Two candidates and the photos at their addresses. */
  datatype Pair = Pair(c1: Candidate, photo1: Photo, c2: Candidate, photo2: Photo)

  /** Both photos may be shared under `contentType`, and they are different photos. */
  predicate Rival(platform: Platform, blocked: set<string>, pair: Pair, contentType: string) {
    && Shareable(platform, blocked, pair.c1, pair.photo1, contentType)
    && Shareable(platform, blocked, pair.c2, pair.photo2, contentType)
    && platform.sha256Hex(pair.photo1.bytes) != platform.sha256Hex(pair.photo2.bytes)
  }

  function Always(photo: Photo): Run -> Option<Photo> { _ => Some(photo) }

  function Calls(i: nat, photo: Photo, n: nat): Schedule {
    if n == 0 then [] else Calls(i, photo, n - 1) + [Call(i, Some(photo))]
  }

  lemma {:induction false} CallsRunAlone(platform: Platform, w: World, i: nat, photo: Photo, n: nat)
    requires i < |w.runs|
    ensures var (s', r') := RunAlone(platform, w.store, w.runs[i], Always(photo), n);
      Exec(platform, w, Calls(i, photo, n)) == World(s', w.runs[i := r'])
    decreases n
  {
    if n > 0 {
      CallsRunAlone(platform, w, i, photo, n - 1);
      ExecConcat(platform, w, Calls(i, photo, n - 1), [Call(i, Some(photo))]);
    }
  }

  lemma {:induction false} CallsOnlyCall(i: nat, photo: Photo, n: nat)
    ensures FixedBlockList(Calls(i, photo, n))
  {
    if n > 0 {
      CallsOnlyCall(i, photo, n - 1);
    }
  }

  // ---------------------------------------------------------------- one run, step by step

  /** A run for `photo` that has picked its object name and stands at `pc`. */
  function Named(platform: Platform, g: string, c: Candidate, photo: Photo, contentType: string, orphan: string, pc: Pc): Run
    requires SharedObjectPath(g, contentType).Some?
  {
    Run(g, [], [], c, Photo(photo.bytes, contentType), platform.sha256Hex(photo.bytes),
        SharedObjectPath(g, contentType).value, orphan, pc)
  }

  lemma ReachesUpload(platform: Platform, s: Store, g: string, c: Candidate, photo: Photo, contentType: string)
    requires IsGtin14(g) && g !in s.rows && Shareable(platform, s.blocked, c, photo, contentType)
    ensures RunAlone(platform, s, Begin(g, [c]), Always(photo), 3)
      == (s, Named(platform, g, c, photo, contentType, "", Upload))
  {
    var r0 := Begin(g, [c]);
    var answer := Always(photo);
    var r1 := r0.(todo := [], c := c, pc := ReadSource);
    assert RunAlone(platform, s, r0, answer, 1) == (s, r1) by {
      assert RunAlone(platform, s, r0, answer, 0) == (s, r0);
      assert r0.todo[1..] == [];
    }
    var r2 := r1.(photo := Photo(photo.bytes, contentType), sha256 := platform.sha256Hex(photo.bytes), pc := CheckBlock);
    assert RunAlone(platform, s, r0, answer, 2) == (s, r2);
  }

  /** With the name free, the fourth call puts the photo in place. */
  lemma UploadsOwn(platform: Platform, s: Store, g: string, c: Candidate, photo: Photo, contentType: string)
    requires IsGtin14(g) && g !in s.rows && Shareable(platform, s.blocked, c, photo, contentType)
    requires SharedObjectPath(g, contentType).value !in s.bucket
    ensures var r' := Named(platform, g, c, photo, contentType, "", InsertOwn);
      RunAlone(platform, s, Begin(g, [c]), Always(photo), 4)
        == (s.(bucket := s.bucket[r'.objectPath := r'.photo]), r')
  {
    ReachesUpload(platform, s, g, c, photo, contentType);
  }

  /** With the name taken and no row, the sixth call has read the object that is there. */
  lemma FindsOrphan(platform: Platform, s: Store, g: string, c: Candidate, photo: Photo, contentType: string)
    requires IsGtin14(g) && g !in s.rows && Shareable(platform, s.blocked, c, photo, contentType)
    requires SharedObjectPath(g, contentType).value in s.bucket
    ensures var orphan := HashAt(platform, s, SharedObjectPath(g, contentType).value);
      RunAlone(platform, s, Begin(g, [c]), Always(photo), 6)
        == (s, Named(platform, g, c, photo, contentType, orphan, CheckOrphan))
  {
    ReachesUpload(platform, s, g, c, photo, contentType);
    var r0, answer := Begin(g, [c]), Always(photo);
    assert RunAlone(platform, s, r0, answer, 4) == (s, Named(platform, g, c, photo, contentType, "", Recheck));
    assert RunAlone(platform, s, r0, answer, 5) == (s, Named(platform, g, c, photo, contentType, "", ReadOrphan));
  }

  lemma FindsBlockedOrphan(platform: Platform, s: Store, g: string, c: Candidate, photo: Photo, contentType: string)
    requires IsGtin14(g) && g !in s.rows && Shareable(platform, s.blocked, c, photo, contentType)
    requires var p := SharedObjectPath(g, contentType).value;
      p in s.bucket && HashAt(platform, s, p) in s.blocked
    ensures var orphan := HashAt(platform, s, SharedObjectPath(g, contentType).value);
      RunAlone(platform, s, Begin(g, [c]), Always(photo), 7)
        == (s, Named(platform, g, c, photo, contentType, orphan, RemoveOrphan))
  {
    FindsOrphan(platform, s, g, c, photo, contentType);
  }

  /** From there it puts its own photo in place, takes the row if it is free, and reports "shared". */
  lemma ReplacesObject(platform: Platform, s: Store, r: Run, photo: Photo)
    requires r.pc.RemoveOrphan?
    requires r.gtin14 in s.rows ==> s.rows[r.gtin14].objectPath == r.objectPath
    ensures var (s', r') := RunAlone(platform, s, r, Always(photo), 4);
      && ReportsShared(r')
      && s'.bucket == s.bucket[r.objectPath := r.photo]
      && s'.rows == (if r.gtin14 in s.rows then s.rows
                     else s.rows[r.gtin14 := SharedRow(r.gtin14, r.objectPath, r.sha256)])
      && s'.blocked == s.blocked
  {
    var answer := Always(photo);
    var s1 := RemoveShared(s, r.objectPath);
    assert RunAlone(platform, s, r, answer, 1) == (s1, r.(pc := Retry)) by {
      assert RunAlone(platform, s, r, answer, 0) == (s, r);
    }
    var s2 := UploadShared(s1, r.objectPath, r.photo);
    assert RunAlone(platform, s, r, answer, 2) == (s2, r.(pc := InsertOwn));
    assert s2.bucket == s.bucket[r.objectPath := r.photo];
    var s3 := InsertSharedRow(s2, SharedRow(r.gtin14, r.objectPath, r.sha256));
    assert RunAlone(platform, s, r, answer, 3) == (s3, r.(pc := CheckOwn));
    assert RunAlone(platform, s, r, answer, 4).0 == s3;
  }

  /** A run whose upload succeeded takes the free row and reports "shared". */
  lemma TakesRow(platform: Platform, s: Store, r: Run, photo: Photo)
    requires r.pc.InsertOwn? && r.gtin14 !in s.rows
    ensures var (s', r') := RunAlone(platform, s, r, Always(photo), 2);
      && ReportsShared(r')
      && s' == s.(rows := s.rows[r.gtin14 := SharedRow(r.gtin14, r.objectPath, r.sha256)])
  {
    var s1 := InsertSharedRow(s, SharedRow(r.gtin14, r.objectPath, r.sha256));
    assert RunAlone(platform, s, r, Always(photo), 1) == (s1, r.(pc := CheckOwn)) by {
      assert RunAlone(platform, s, r, Always(photo), 0) == (s, r);
    }
  }

  // ---------------------------------------------------------------- the race over a blocked orphan

  /** Two more runs begin. */
  function Join2(g: string, pair: Pair): Schedule {
    [Start(g, [pair.c1]), Start(g, [pair.c2])]
  }

  lemma BothBegin(platform: Platform, w: World, g: string, pair: Pair)
    requires IsGtin14(g)
    ensures Exec(platform, w, Join2(g, pair))
      == World(w.store, w.runs + [Begin(g, [pair.c1]), Begin(g, [pair.c2])])
  {
    var r1, r2 := Begin(g, [pair.c1]), Begin(g, [pair.c2]);
    var w1 := Act(platform, w, Start(g, [pair.c1]));
    assert Join2(g, pair)[1..] == [Start(g, [pair.c2])];
    assert Exec(platform, w1, [Start(g, [pair.c2])]) == World(w.store, w.runs + [r1] + [r2]);
    assert w.runs + [r1] + [r2] == w.runs + [r1, r2];
  }

  /** Both new runs find the object; then the first replaces it; then the second does. `n` runs are there already. */
  function RaceSchedule(n: nat, g: string, pair: Pair): Schedule {
    FindSchedule(n, g, pair) + (Calls(n, pair.photo1, 4) + Calls(n + 1, pair.photo2, 4))
  }

  function FindSchedule(n: nat, g: string, pair: Pair): Schedule {
    Join2(g, pair) + (Calls(n, pair.photo1, 7) + Calls(n + 1, pair.photo2, 7))
  }

  /** The first, then the second of the last two runs makes its calls. */
  lemma BothCall(platform: Platform, s: Store, before: seq<Run>, r1: Run, r2: Run, pair: Pair, n1: nat, n2: nat)
    ensures var (s1, r1') := RunAlone(platform, s, r1, Always(pair.photo1), n1);
      var (s2, r2') := RunAlone(platform, s1, r2, Always(pair.photo2), n2);
      Exec(platform, World(s, before + [r1, r2]), Calls(|before|, pair.photo1, n1) + Calls(|before| + 1, pair.photo2, n2))
        == World(s2, before + [r1', r2'])
  {
    var w, n := World(s, before + [r1, r2]), |before|;
    var (s1, r1') := RunAlone(platform, s, r1, Always(pair.photo1), n1);
    var (s2, r2') := RunAlone(platform, s1, r2, Always(pair.photo2), n2);
    ExecConcat(platform, w, Calls(n, pair.photo1, n1), Calls(n + 1, pair.photo2, n2));
    CallsRunAlone(platform, w, n, pair.photo1, n1);
    assert w.runs[n := r1'] == before + [r1', r2];
    CallsRunAlone(platform, World(s1, before + [r1', r2]), n + 1, pair.photo2, n2);
    assert (before + [r1', r2])[n + 1 := r2'] == before + [r1', r2'];
  }

  lemma BothFindOrphan(platform: Platform, w: World, g: string, contentType: string, pair: Pair)
    requires IsGtin14(g) && g !in w.store.rows && Rival(platform, w.store.blocked, pair, contentType)
    requires var p := SharedObjectPath(g, contentType).value;
      p in w.store.bucket && HashAt(platform, w.store, p) in w.store.blocked
    ensures var orphan := HashAt(platform, w.store, SharedObjectPath(g, contentType).value);
      Exec(platform, w, FindSchedule(|w.runs|, g, pair))
        == World(w.store, w.runs + [Named(platform, g, pair.c1, pair.photo1, contentType, orphan, RemoveOrphan),
                                    Named(platform, g, pair.c2, pair.photo2, contentType, orphan, RemoveOrphan)])
  {
    FindsBlockedOrphan(platform, w.store, g, pair.c1, pair.photo1, contentType);
    FindsBlockedOrphan(platform, w.store, g, pair.c2, pair.photo2, contentType);
    var n := |w.runs|;
    ExecConcat(platform, w, Join2(g, pair), Calls(n, pair.photo1, 7) + Calls(n + 1, pair.photo2, 7));
    BothBegin(platform, w, g, pair);
    BothCall(platform, w.store, w.runs, Begin(g, [pair.c1]), Begin(g, [pair.c2]), pair, 7, 7);
  }

  lemma RaceHasFixedBlockList(n: nat, g: string, pair: Pair)
    ensures FixedBlockList(RaceSchedule(n, g, pair))
  {
    CallsOnlyCall(n, pair.photo1, 7);
    CallsOnlyCall(n + 1, pair.photo2, 7);
    CallsOnlyCall(n, pair.photo1, 4);
    CallsOnlyCall(n + 1, pair.photo2, 4);
  }

  /** Two runs of barcode `g` reported "shared", and its row's hash is not that of the object it names. */
  ghost predicate BothSharedRowWrong(platform: Platform, w: World, n: nat, g: string) {
    && |w.runs| == n + 2 && ReportsShared(w.runs[n]) && ReportsShared(w.runs[n + 1])
    && g in w.store.rows && w.store.rows[g].objectPath in w.store.bucket
    && HashAt(platform, w.store, w.store.rows[g].objectPath) != w.store.rows[g].sha256
  }

  lemma BothReplace(platform: Platform, s: Store, before: seq<Run>, r1: Run, r2: Run, pair: Pair)
    requires r1.pc.RemoveOrphan? && r2.pc.RemoveOrphan? && r1.gtin14 !in s.rows
    requires r1.gtin14 == r2.gtin14 && r1.objectPath == r2.objectPath
    requires platform.sha256Hex(r2.photo.bytes) != r1.sha256
    ensures BothSharedRowWrong(platform,
              Exec(platform, World(s, before + [r1, r2]),
                   Calls(|before|, pair.photo1, 4) + Calls(|before| + 1, pair.photo2, 4)),
              |before|, r1.gtin14)
  {
    BothCall(platform, s, before, r1, r2, pair, 4, 4);
    ReplacesObject(platform, s, r1, pair.photo1);
    ReplacesObject(platform, RunAlone(platform, s, r1, Always(pair.photo1), 4).0, r2, pair.photo2);
  }

  /**
   The witness: in every world with a blocked object that has no row, two more
   runs without a crash end with both reporting "shared" and a row whose hash is
   not that of the object it names.
   */
  lemma BlockedOrphanBreaksAgreement(platform: Platform, w: World, g: string, contentType: string, pair: Pair)
    requires IsGtin14(g) && g !in w.store.rows && Rival(platform, w.store.blocked, pair, contentType)
    requires var p := SharedObjectPath(g, contentType).value;
      p in w.store.bucket && HashAt(platform, w.store, p) in w.store.blocked
    ensures var schedule := RaceSchedule(|w.runs|, g, pair);
      FixedBlockList(schedule) && BothSharedRowWrong(platform, Exec(platform, w, schedule), |w.runs|, g)
  {
    var s, n := w.store, |w.runs|;
    var orphan := HashAt(platform, s, SharedObjectPath(g, contentType).value);
    var a1 := Named(platform, g, pair.c1, pair.photo1, contentType, orphan, RemoveOrphan);
    var a2 := Named(platform, g, pair.c2, pair.photo2, contentType, orphan, RemoveOrphan);
    RaceHasFixedBlockList(n, g, pair);
    BothFindOrphan(platform, w, g, contentType, pair);
    ExecConcat(platform, w, FindSchedule(n, g, pair), Calls(n, pair.photo1, 4) + Calls(n + 1, pair.photo2, 4));
    BothReplace(platform, s, w.runs, a1, a2, pair);
  }

  /** Rows and objects agree after every schedule that leaves the block list as it is. */
  ghost predicate AlwaysAgrees(platform: Platform, w: World) {
    forall schedule :: FixedBlockList(schedule) ==> RowsAgree(platform, Exec(platform, w, schedule).store)
  }

  /**
   The exact condition at one name. Take a barcode without a row for which two
   different photos of one type may be shared, and nothing blocked without a row
   elsewhere. Rows and objects agree after every interleaving, with a fixed block
   list, if and only if the object already under that name, if any, is not blocked.
   */
  lemma AgreementExactlyWithoutBlockedOrphan(platform: Platform, s: Store, g: string, contentType: string, pair: Pair)
    requires RowsAgree(platform, s) && IsGtin14(g) && g !in s.rows && Rival(platform, s.blocked, pair, contentType)
    requires forall q :: q in s.bucket && IsSharedName(q) && GtinOf(q) !in s.rows
                         && q != SharedObjectPath(g, contentType).value ==>
               HashAt(platform, s, q) !in s.blocked
    ensures AlwaysAgrees(platform, World(s, []))
            <==> (var p := SharedObjectPath(g, contentType).value;
                  p in s.bucket ==> HashAt(platform, s, p) !in s.blocked)
  {
    var p := SharedObjectPath(g, contentType).value;
    if p in s.bucket && HashAt(platform, s, p) in s.blocked {
      BlockedOrphanBreaksAgreement(platform, World(s, []), g, contentType, pair);
      assert !RowsAgree(platform, Exec(platform, World(s, []), RaceSchedule(0, g, pair)).store);
    } else {
      InvAlwaysAgrees(platform, World(s, []));
    }
  }

  lemma InvAlwaysAgrees(platform: Platform, w: World)
    requires Inv(platform, w)
    ensures AlwaysAgrees(platform, w)
  {
    forall schedule | FixedBlockList(schedule)
      ensures RowsAgree(platform, Exec(platform, w, schedule).store)
    {
      FixedIsGuarded(platform, w, schedule);
      ExecKeepsInv(platform, w, schedule);
    }
  }

  // ---------------------------------------------------------------- the whole store

  /** For every type a copy can have there are two different photos that may be shared. */
  ghost predicate Rivals(platform: Platform, blocked: set<string>, rivals: string -> Pair) {
    forall t {:trigger rivals(t)} :: t in NAMED_TYPES ==> Rival(platform, blocked, rivals(t), t)
  }

  lemma BlockedOrphanDisagrees(platform: Platform, w: World, p: string, rivals: string -> Pair)
    requires Rivals(platform, w.store.blocked, rivals)
    requires p in w.store.bucket && IsSharedName(p) && GtinOf(p) !in w.store.rows
    requires HashAt(platform, w.store, p) in w.store.blocked
    ensures !AlwaysAgrees(platform, w)
  {
    var t :| t in NAMED_TYPES && SharedObjectPath(GtinOf(p), t) == Some(p);
    BlockedOrphanBreaksAgreement(platform, w, GtinOf(p), t, rivals(t));
    assert !RowsAgree(platform, Exec(platform, w, RaceSchedule(|w.runs|, GtinOf(p), rivals(t))).store);
  }

  /**
   The exact condition for a whole store: with a fixed block list, rows and objects
   agree after every interleaving if and only if no object under the name of a
   barcode without a row is blocked.
   */
  lemma StoreAgreesExactlyWhen(platform: Platform, s: Store, rivals: string -> Pair)
    requires RowsAgree(platform, s) && Rivals(platform, s.blocked, rivals)
    ensures AlwaysAgrees(platform, World(s, [])) <==> NoBlockedOrphan(platform, s)
  {
    if NoBlockedOrphan(platform, s) {
      InvAlwaysAgrees(platform, World(s, []));
    } else {
      var p :| p in s.bucket && IsSharedName(p) && GtinOf(p) !in s.rows && HashAt(platform, s, p) in s.blocked;
      BlockedOrphanDisagrees(platform, World(s, []), p, rivals);
    }
  }

  // ---------------------------------------------------------------- a hash blocked in between

  /**
   One run uploads, the other reads the new object, its hash is blocked, and the
   other run takes it for a blocked leftover.
   */
  function MidRaceSchedule(platform: Platform, g: string, pair: Pair): Schedule {
    Join2(g, pair) + ((Calls(0, pair.photo1, 4) + Calls(1, pair.photo2, 6))
      + ([Block(platform.sha256Hex(pair.photo1.bytes))]
        + (Calls(1, pair.photo2, 1) + (Calls(0, pair.photo1, 2) + Calls(1, pair.photo2, 4)))))
  }

  /** Blocking a hash in the middle of a race breaks the agreement even from an empty store. */
  lemma BlockMidRaceBreaksAgreement(platform: Platform, s: Store, g: string, contentType: string, pair: Pair)
    requires IsGtin14(g) && g !in s.rows && Rival(platform, s.blocked, pair, contentType)
    requires SharedObjectPath(g, contentType).value !in s.bucket
    ensures BothSharedRowWrong(platform, Exec(platform, World(s, []), MidRaceSchedule(platform, g, pair)), 0, g)
  {
    var p, h1 := SharedObjectPath(g, contentType).value, platform.sha256Hex(pair.photo1.bytes);
    var a1 := Named(platform, g, pair.c1, pair.photo1, contentType, "", InsertOwn);
    var a2 := Named(platform, g, pair.c2, pair.photo2, contentType, h1, CheckOrphan);
    var s1 := s.(bucket := s.bucket[p := a1.photo]);
    var s2 := s1.(blocked := s1.blocked + {h1});
    var end := Calls(0, pair.photo1, 2) + Calls(1, pair.photo2, 4);
    var late := [Block(h1)] + (Calls(1, pair.photo2, 1) + end);
    var race := Calls(0, pair.photo1, 4) + Calls(1, pair.photo2, 6);
    ExecConcat(platform, World(s, []), Join2(g, pair), race + late);
    BothBegin(platform, World(s, []), g, pair);
    var begun := World(s, [Begin(g, [pair.c1]), Begin(g, [pair.c2])]);
    assert Exec(platform, World(s, []), Join2(g, pair)) == begun;
    ExecConcat(platform, begun, race, late);
    assert Exec(platform, begun, race) == World(s1, [a1, a2]) by {
      UploadsOwn(platform, s, g, pair.c1, pair.photo1, contentType);
      FindsOrphan(platform, s1, g, pair.c2, pair.photo2, contentType);
      BothCall(platform, s, [], Begin(g, [pair.c1]), Begin(g, [pair.c2]), pair, 4, 6);
    }
    MidRaceEnds(platform, s2, p, a1, a2, pair);
    assert late[1..] == Calls(1, pair.photo2, 1) + end;
    assert Act(platform, World(s1, [a1, a2]), Block(h1)) == World(s2, [a1, a2]);
  }

  lemma MidRaceEnds(platform: Platform, s: Store, p: string, r1: Run, r2: Run, pair: Pair)
    requires r1.pc.InsertOwn? && r1.gtin14 !in s.rows && r1.objectPath == p && p in s.bucket
    requires r2.pc.CheckOrphan? && r2.gtin14 == r1.gtin14 && r2.objectPath == p && r2.orphanSha in s.blocked
    requires platform.sha256Hex(r2.photo.bytes) != r1.sha256
    ensures BothSharedRowWrong(platform,
              Exec(platform, World(s, [r1, r2]),
                   Calls(1, pair.photo2, 1) + (Calls(0, pair.photo1, 2) + Calls(1, pair.photo2, 4))),
              0, r1.gtin14)
  {
    var r2' := r2.(pc := RemoveOrphan);
    var end := Calls(0, pair.photo1, 2) + Calls(1, pair.photo2, 4);
    ExecConcat(platform, World(s, [r1, r2]), Calls(1, pair.photo2, 1), end);
    assert Exec(platform, World(s, [r1, r2]), Calls(1, pair.photo2, 1)) == World(s, [r1, r2']) by {
      CallsRunAlone(platform, World(s, [r1, r2]), 1, pair.photo2, 1);
      assert RunAlone(platform, s, r2, Always(pair.photo2), 0) == (s, r2);
      assert [r1, r2][1 := r2'] == [r1, r2'];
    }
    TakesRow(platform, s, r1, pair.photo1);
    var s1 := RunAlone(platform, s, r1, Always(pair.photo1), 2).0;
    ReplacesObject(platform, s1, r2', pair.photo2);
    BothCall(platform, s, [], r1, r2', pair, 2, 4);
    assert [] + [r1, r2'] == [r1, r2'];
  }

  /** A run that has read its row's object and finds its hash blocked removes it. */
  lemma RemovesRowObject(platform: Platform, w: World, i: nat)
    requires i < |w.runs|
    requires var r := w.runs[i];
      && r.gtin14 in w.store.rows && w.store.rows[r.gtin14].objectPath == r.objectPath
      && r.pc.CheckOrphan? && r.orphanSha in w.store.blocked
    ensures !AlwaysAgrees(platform, w)
  {
    var r, schedule := w.runs[i], [Call(i, None), Call(i, None)];
    var w1 := Act(platform, w, Call(i, None));
    assert w1 == World(w.store, w.runs[i := r.(pc := RemoveOrphan)]);
    var w2 := Act(platform, w1, Call(i, None));
    assert w2.store == RemoveShared(w.store, r.objectPath);
    assert schedule[1..] == [Call(i, None)];
    assert Exec(platform, w1, schedule[1..]) == w2;
    assert Exec(platform, w, schedule) == w2;
    assert FixedBlockList(schedule) && !RowsAgree(platform, w2.store);
  }

  /** What breaks after some first actions can break. */
  lemma DisagreesLater(platform: Platform, w: World, a: Action)
    requires !a.Block? && !AlwaysAgrees(platform, Act(platform, w, a))
    ensures !AlwaysAgrees(platform, w)
  {
    var rest :| FixedBlockList(rest) && !RowsAgree(platform, Exec(platform, Act(platform, w, a), rest).store);
    assert ([a] + rest)[1..] == rest;
    assert FixedBlockList([a] + rest);
    assert !RowsAgree(platform, Exec(platform, w, [a] + rest).store);
  }

  lemma UploadsNext(platform: Platform, w: World, i: nat)
    requires i < |w.runs| && w.runs[i].pc.Upload? && w.runs[i].objectPath !in w.store.bucket
    ensures var r := w.runs[i];
      Act(platform, w, Call(i, None))
        == World(w.store.(bucket := w.store.bucket[r.objectPath := r.photo]), w.runs[i := r.(pc := InsertOwn)])
  {
  }

  lemma UnsafeUploadDisagrees(platform: Platform, w: World, i: nat, rivals: string -> Pair)
    requires i < |w.runs| && Rivals(platform, w.store.blocked, rivals)
    requires var r := w.runs[i];
      && r.pc.Upload? && IsSharedName(r.objectPath) && GtinOf(r.objectPath) !in w.store.rows
      && r.objectPath !in w.store.bucket && platform.sha256Hex(r.photo.bytes) in w.store.blocked
    ensures !AlwaysAgrees(platform, w)
  {
    UploadsNext(platform, w, i);
    BlockedOrphanDisagrees(platform, Act(platform, w, Call(i, None)), w.runs[i].objectPath, rivals);
    DisagreesLater(platform, w, Call(i, None));
  }

  lemma UnsafeReadDisagrees(platform: Platform, w: World, i: nat)
    requires i < |w.runs|
    requires var r := w.runs[i];
      && r.gtin14 in w.store.rows && w.store.rows[r.gtin14].objectPath == r.objectPath
      && r.pc.ReadOrphan? && r.objectPath in w.store.bucket
      && HashAt(platform, w.store, r.objectPath) in w.store.blocked
    ensures !AlwaysAgrees(platform, w)
  {
    var r := w.runs[i];
    var w1 := Act(platform, w, Call(i, None));
    assert w1 == World(w.store, w.runs[i := r.(orphanSha := HashAt(platform, w.store, r.objectPath), pc := CheckOrphan)]);
    RemovesRowObject(platform, w1, i);
    DisagreesLater(platform, w, Call(i, None));
  }

  /** What blocking `h` in front of a run that does not allow it looks like. */
  lemma UnsafeRunKinds(platform: Platform, s: Store, r: Run, h: string)
    requires RunOk(platform, s, r) && !RunAllows(platform, s, r, h)
    ensures var p := r.objectPath;
      && IsSharedName(p) && GtinOf(p) == r.gtin14
      && (r.pc.Upload? ==> GtinOf(p) !in s.rows && p !in s.bucket && platform.sha256Hex(r.photo.bytes) == h)
      && (!r.pc.Upload? ==>
            && p in s.bucket && HashAt(platform, s, p) == h
            && (GtinOf(p) in s.rows ==> s.rows[GtinOf(p)].objectPath == p)
            && (r.pc.ReadOrphan? || (r.pc.CheckOrphan? && r.orphanSha == h)))
  {
  }

  /** `w` is a world after `h` was blocked, `before` the store just before. */
  lemma UnsafeRunDisagrees(platform: Platform, w: World, before: Store, h: string, i: nat, rivals: string -> Pair)
    requires i < |w.runs| && RunOk(platform, before, w.runs[i]) && !RunAllows(platform, before, w.runs[i], h)
    requires w.store == before.(blocked := before.blocked + {h}) && Rivals(platform, w.store.blocked, rivals)
    ensures !AlwaysAgrees(platform, w)
  {
    var r := w.runs[i];
    UnsafeRunKinds(platform, before, r, h);
    if r.pc.Upload? {
      UnsafeUploadDisagrees(platform, w, i, rivals);
    } else if r.gtin14 !in before.rows {
      BlockedOrphanDisagrees(platform, w, r.objectPath, rivals);
    } else if r.pc.CheckOrphan? {
      RemovesRowObject(platform, w, i);
    } else {
      UnsafeReadDisagrees(platform, w, i);
    }
  }

  lemma UnsafeOrphanDisagrees(platform: Platform, w: World, h: string, p: string, rivals: string -> Pair)
    requires Rivals(platform, w.store.blocked + {h}, rivals)
    requires p in w.store.bucket && IsSharedName(p) && GtinOf(p) !in w.store.rows && HashAt(platform, w.store, p) == h
    ensures !AlwaysAgrees(platform, Act(platform, w, Block(h)))
  {
    BlockedOrphanDisagrees(platform, Act(platform, w, Block(h)), p, rivals);
  }

  lemma UnsafeBlockDisagrees(platform: Platform, w: World, h: string, rivals: string -> Pair)
    requires forall i :: 0 <= i < |w.runs| ==> RunOk(platform, w.store, w.runs[i])
    requires Rivals(platform, w.store.blocked + {h}, rivals)
    requires !SafeBlock(platform, w, h)
    ensures !AlwaysAgrees(platform, Act(platform, w, Block(h)))
  {
    var w' := Act(platform, w, Block(h));
    if i :| 0 <= i < |w.runs| && !RunAllows(platform, w.store, w.runs[i], h) {
      UnsafeRunDisagrees(platform, w', w.store, h, i, rivals);
    } else {
      var p :| p in w.store.bucket && IsSharedName(p) && GtinOf(p) !in w.store.rows && HashAt(platform, w.store, p) == h;
      UnsafeOrphanDisagrees(platform, w, h, p, rivals);
    }
  }

  /**
   When a hash may be blocked while runs are under way. From every world that can
   arise, rows and objects agree after every continuation if and only if, at the
   moment of blocking, no object of a barcode without a row has that hash, no run
   is about to upload such an object, and no run is looking at a live object with
   that hash.
   */
  lemma BlockSafeExactlyWhen(platform: Platform, w: World, h: string, rivals: string -> Pair)
    requires Inv(platform, w)
    requires Rivals(platform, w.store.blocked + {h}, rivals)
    ensures AlwaysAgrees(platform, Act(platform, w, Block(h))) <==> SafeBlock(platform, w, h)
  {
    if SafeBlock(platform, w, h) {
      BlockKeepsInv(platform, w, h);
      InvAlwaysAgrees(platform, Act(platform, w, Block(h)));
    } else {
      UnsafeBlockDisagrees(platform, w, h, rivals);
    }
  }
}
