/**
 Runs that do not overlap: a run starts only once every earlier one has returned
 or died. Then rows and objects agree from any set of leftover objects, blocked
 ones included, with crashes anywhere and a block list that grows at any moment.
 */
module ShareSerial {
  import opened Prelude
  import opened SharePhoto
  import opened ShareMachine
  import opened ShareRaces

  ghost predicate AllFinished(w: World) {
    forall i :: 0 <= i < |w.runs| ==> w.runs[i].Finished()
  }

  ghost predicate Serial(platform: Platform, w: World, schedule: Schedule)
    decreases |schedule|
  {
    schedule != [] ==>
      && (schedule[0].Start? ==> AllFinished(w))
      && Serial(platform, Act(platform, w, schedule[0]), schedule[1..])
  }

  /** What the one unfinished run knows about the store nobody else is writing to. */
  predicate AloneOk(platform: Platform, s: Store, r: Run) {
    if r.pc.CheckRow? then SearchOk(platform, s, r)
    else if Searching(r) then SearchOk(platform, s, r) && r.gtin14 !in s.rows
    else if r.Finished() then
      r.pc.Done? && r.pc.outcome.status.Shared? ==>
        r.gtin14 in s.rows && r.pc.outcome.sha256 == Some(s.rows[r.gtin14].sha256)
    else
      && Hashed(platform, r)
      && GtinOf(r.objectPath) == r.gtin14
      && (r.pc.CheckOwn? ==>
            && r.gtin14 in s.rows
            && s.rows[r.gtin14] == SharedRow(r.gtin14, r.objectPath, r.sha256))
      && (!r.pc.CheckOwn? ==> r.gtin14 !in s.rows)
      && (r.pc.Recheck? || r.pc.ReadOrphan? ==> r.objectPath in s.bucket)
      && (r.pc.CheckOrphan? || r.pc.InsertOrphan? ==>
            r.objectPath in s.bucket && HashAt(platform, s, r.objectPath) == r.orphanSha)
      && (r.pc.Retry? ==> r.objectPath !in s.bucket)
      && (r.pc.InsertOwn? ==> r.objectPath in s.bucket && HashAt(platform, s, r.objectPath) == r.sha256)
      && !r.pc.RemoveOwn?
  }

  ghost predicate Inv(platform: Platform, w: World) {
    && RowsAgree(platform, w.store)
    && (forall i :: 0 <= i < |w.runs| ==> AloneOk(platform, w.store, w.runs[i]))
    && (forall i :: 0 <= i < |w.runs| - 1 ==> w.runs[i].Finished())
  }

  lemma StepAlone(platform: Platform, s: Store, r: Run, source: Option<Photo>)
    requires RowsAgree(platform, s) && AloneOk(platform, s, r)
    ensures var (s', r') := Step(platform, s, r, source);
      && RowsAgree(platform, s') && AloneOk(platform, s', r')
      && (forall g :: g in s.rows ==> g in s'.rows && s'.rows[g] == s.rows[g])
      && (r.Finished() ==> r' == r && s' == s)
  {
    if Searching(r) {
      SearchStep(platform, s, r, source);
    }
  }

  lemma ActAlone(platform: Platform, w: World, a: Action)
    requires Inv(platform, w) && (a.Start? ==> AllFinished(w))
    ensures Inv(platform, Act(platform, w, a))
  {
    var w' := Act(platform, w, a);
    if a.Call? && a.i < |w.runs| {
      StepAlone(platform, w.store, w.runs[a.i], a.source);
      forall i | 0 <= i < |w'.runs|
        ensures AloneOk(platform, w'.store, w'.runs[i])
      {
        assert AloneOk(platform, w.store, w.runs[i]);
      }
    }
  }

  lemma {:induction false} SerialRunsAgree(platform: Platform, w: World, schedule: Schedule)
    requires Inv(platform, w) && Serial(platform, w, schedule)
    ensures Inv(platform, Exec(platform, w, schedule))
    decreases |schedule|
  {
    if schedule != [] {
      ActAlone(platform, w, schedule[0]);
      SerialRunsAgree(platform, Act(platform, w, schedule[0]), schedule[1..]);
    }
  }

  /** Non-overlapping runs keep every row in agreement with the object it names, whatever was lying around. */
  lemma SerialRowsAgree(platform: Platform, w: World, schedule: Schedule)
    requires w.runs == [] && RowsAgree(platform, w.store) && Serial(platform, w, schedule)
    ensures var w' := Exec(platform, w, schedule);
      && RowsAgree(platform, w'.store)
      && forall i :: 0 <= i < |w'.runs| && ReportsShared(w'.runs[i]) ==>
           && w'.runs[i].gtin14 in w'.store.rows
           && w'.runs[i].pc.outcome.sha256 == Some(w'.store.rows[w'.runs[i].gtin14].sha256)
  {
    SerialRunsAgree(platform, w, schedule);
    var w' := Exec(platform, w, schedule);
    assert forall i :: 0 <= i < |w'.runs| ==> AloneOk(platform, w'.store, w'.runs[i]);
  }
}
