/** Properties relating several coordinate operations. */
module CoordinateProperties {
  import opened Wrappers
  import opened Schedules
  import opened Traces
  import opened Coordinates

  // ---------------------------------------------------------------- with… copies

  /** A second copy along the same field overrides the first. */
  lemma WithLastWriteWins(c: Coords, r1: Option<RecorderRef>, r2: Option<RecorderRef>,
                          t1: Option<ThreadRef>, t2: Option<ThreadRef>,
                          s1: Option<Schedule>, s2: Option<Schedule>,
                          v1: Option<ViewRef>, v2: Option<ViewRef>,
                          o1: Option<ObjectRef>, o2: Option<ObjectRef>)
    ensures WithRecorder(WithRecorder(c, r1), r2) == WithRecorder(c, r2)
    ensures WithThread(WithThread(c, t1), t2) == WithThread(c, t2)
    ensures WithTime(WithTime(c, s1), s2) == WithTime(c, s2)
    ensures WithView(WithView(c, v1), v2) == WithView(c, v2)
    ensures WithObject(WithObject(c, o1), o2) == WithObject(c, o2)
  {
  }

  /** Copying a field's own value gives back the same coordinates. */
  lemma WithOwnValueIsIdentity(c: Coords)
    ensures WithRecorder(c, c.recorder) == c && WithThread(c, c.thread) == c
    ensures WithTime(c, c.time) == c && WithView(c, c.view) == c && WithObject(c, c.obj) == c
    ensures WithSnap(c, None) == c
  {
  }

  /** The snap read back from coordinates equals the snap put in; for a schedule with
      steps it is the snap the schedule replays from. */
  lemma SnapRoundTrips(store: Store, c: Coords, snap: int, th: Option<ThreadRef>,
                       v: ViewRef, rec: RecorderRef, s: Schedule)
    ensures GetSnap(FromSnap(snap)) == snap
    ensures GetSnap(WithSnap(c, Some(snap))) == snap
    ensures GetSnap(FromThreadSnap(store, th, snap)) == snap
    ensures GetSnap(RawView(store, v)) == store.viewSnap(v)
    ensures GetSnap(FromRecorder(store, Some(rec))) == store.recorderSnap(rec)
    ensures GetSnap(FromTime(Some(s))) == s.snap
    ensures GetSnap(WithTime(c, Some(s))) == s.snap
    ensures GetSnap(All(c.trace, c.recorder, c.thread, c.view, Some(s), c.frame, c.obj)) == s.snap
    ensures ScratchOrigin(store, v).Some? ==>
      GetSnap(FromView(store, Some(v))) == ScratchOrigin(store, v).value.snap
  {
  }

  /** Re-finding the thread twice is re-finding it once, provided the thread manager
      returns, under the key of the thread it found, that same thread. */
  lemma ReFoundThreadIsIdempotent(store: Store, c: Coords)
    requires c.trace.Some? && c.thread.Some? ==>
      var found := store.threadByKey(c.trace.value, store.threadKey(c.thread.value));
      found.Some? ==> store.threadByKey(c.trace.value, store.threadKey(found.value)) == found
    ensures WithReFoundThread(store, WithReFoundThread(store, c)) == WithReFoundThread(store, c)
  {
  }

  // ---------------------------------------------------------------- equalities

  lemma EqualsImpliesEqualsIgnoreRecorderAndView(a: Coords, b: Coords)
    requires Equals(a, Some(b))
    ensures EqualsIgnoreRecorderAndView(a, b)
  {
  }

  /** Changing recorder, view or object never changes the logical position. */
  lemma EqualsIgnoreRecorderAndViewIgnoresThem(c: Coords, rec: Option<RecorderRef>,
                                               v: Option<ViewRef>, o: Option<ObjectRef>)
    ensures EqualsIgnoreRecorderAndView(WithRecorder(c, rec), c)
    ensures EqualsIgnoreRecorderAndView(WithView(c, v), c)
    ensures EqualsIgnoreRecorderAndView(WithObject(c, o), c)
  {
  }

  /** Changing the thread or the time does change it. */
  lemma EqualsIgnoreRecorderAndViewSeesThreadAndTime(c: Coords, th: Option<ThreadRef>,
                                                     time: Option<Schedule>)
    ensures EqualsIgnoreRecorderAndView(WithThread(c, th), c) <==> th == c.thread
    ensures EqualsIgnoreRecorderAndView(WithTime(c, time), c) <==> time == c.time
  {
  }

  lemma EqualsIgnoreRecorderAndViewIsEquivalence(a: Coords, b: Coords, c: Coords)
    ensures EqualsIgnoreRecorderAndView(a, a)
    ensures EqualsIgnoreRecorderAndView(a, b) ==> EqualsIgnoreRecorderAndView(b, a)
    ensures EqualsIgnoreRecorderAndView(a, b) && EqualsIgnoreRecorderAndView(b, c) ==>
      EqualsIgnoreRecorderAndView(a, c)
  {
  }

  /** The weaker equality is strictly weaker: attaching a recorder keeps the position. */
  lemma EqualsIgnoreRecorderAndViewIsStrictlyWeaker(store: Store, rec: RecorderRef)
    ensures var c := FromRecorder(store, Some(rec));
      EqualsIgnoreRecorderAndView(c, WithRecorder(c, None)) && !Equals(c, Some(WithRecorder(c, None)))
  {
  }

  // ---------------------------------------------------------------- views

  /** `view(v)` keeps the view exactly when it falls back to `rawView(v)`, and the time is
      then the view's snap. */
  lemma FromViewKeepsViewOnlyWhenRaw(store: Store, v: ViewRef)
    ensures var r := FromView(store, Some(v));
      && r.trace == Some(store.viewTrace(v)) && r.recorder.None? && r.thread.None?
      && r.frame.None? && r.obj.None?
      && (r.view.Some? <==> ScratchOrigin(store, v).None?)
      && (r.view.Some? ==> r.time == Some(SnapOnly(store.viewSnap(v))))
      && (r.view.None? ==> r.time == ScratchOrigin(store, v))
  {
  }

  /** A view whose snap is scratch, on a trace whose first snapshot at that key records a
      schedule, is mapped to that schedule on the view's trace, without the view. */
  lemma ScratchViewMapsToRecordedSchedule(store: Store, v: ViewRef, i: nat)
    requires store.isScratch(store.viewSnap(v))
    requires i < |store.snapshots(store.viewTrace(v))|
    requires store.snapshots(store.viewTrace(v))[i].key == store.viewSnap(v)
    requires forall j :: 0 <= j < i ==>
      store.snapshots(store.viewTrace(v))[j].key != store.viewSnap(v)
    requires store.snapshots(store.viewTrace(v))[i].schedule.Some?
    ensures ScratchOrigin(store, v) == store.snapshots(store.viewTrace(v))[i].schedule
    ensures FromView(store, Some(v)) ==
      Coords(Some(store.viewTrace(v)), None, None, None,
             store.snapshots(store.viewTrace(v))[i].schedule, None, None)
  {
  }

  /** A view on a fresh scratch snapshot that the emulator stored for `schedule` is mapped
      back to `schedule` on the view's trace. */
  lemma MaterializedViewMapsBackToSchedule(store: Store, v: ViewRef, schedule: Schedule)
    requires store.isScratch(store.viewSnap(v))
    requires SnapshotAt(store.snapshots(store.viewTrace(v)), store.viewSnap(v)).None?
    ensures var stored := AddSnapshot(store, store.viewTrace(v),
                                      Snapshot(store.viewSnap(v), Some(schedule)));
      FromView(stored, Some(v)) == WithTime(FromTrace(Some(store.viewTrace(v))), Some(schedule))
  {
    var tr, key := store.viewTrace(v), store.viewSnap(v);
    var s := Snapshot(key, Some(schedule));
    var stored := AddSnapshot(store, tr, s);
    FindFirstAppend(store.snapshots(tr), [s], KeyRole(key));
    assert FindFirst([s], KeyRole(key)) == Some(s);
    assert SnapshotAt(stored.snapshots(tr), key) == Some(s);
  }

  /** ...and the view snap of those coordinates is that scratch snapshot again, when it is
      the first snapshot recorded with the schedule. */
  lemma MaterializedViewSnapRoundTrip(store: Store, v: ViewRef, schedule: Schedule)
    requires store.isScratch(store.viewSnap(v))
    requires SnapshotAt(store.snapshots(store.viewTrace(v)), store.viewSnap(v)).None?
    requires FirstKeyWithSchedule(store.snapshots(store.viewTrace(v)), schedule).None?
    requires !schedule.IsSnapOnly()
    ensures var stored := AddSnapshot(store, store.viewTrace(v),
                                      Snapshot(store.viewSnap(v), Some(schedule)));
      ResolveViewSnap(stored, FromView(stored, Some(v))) == ViewSnapAnswer(store.viewSnap(v), true)
  {
    var tr, key := store.viewTrace(v), store.viewSnap(v);
    var s := Snapshot(key, Some(schedule));
    var stored := AddSnapshot(store, tr, s);
    MaterializedViewMapsBackToSchedule(store, v, schedule);
    FindFirstAppend(store.snapshots(tr), [s], ScheduleRole(schedule));
    assert FindFirst([s], ScheduleRole(schedule)) == Some(key);
    assert FirstKeyWithSchedule(stored.snapshots(tr), schedule) == Some(key);
  }

  // ---------------------------------------------------------------- view snap cache

  /** A fallback is not cached because the emulator may still deliver: once it stores a
      snapshot for the schedule, the lookup finds that snapshot's key and caches it. */
  lemma ViewSnapFoundAfterMaterialization(store: Store, c: Coords, key: int)
    requires CanResolveViewSnap(c) && !c.time.value.IsSnapOnly()
    requires !ResolveViewSnap(store, c).cacheable
    ensures ResolveViewSnap(AddSnapshot(store, c.trace.value, Snapshot(key, c.time)), c) ==
      ViewSnapAnswer(key, true)
  {
    var tr, time := c.trace.value, c.time.value;
    var s := Snapshot(key, c.time);
    FindFirstAppend(store.snapshots(tr), [s], ScheduleRole(time));
    assert FindFirst([s], ScheduleRole(time)) == Some(key);
    assert FirstKeyWithSchedule(AddSnapshot(store, tr, s).snapshots(tr), time) == Some(key);
  }

  /** Caching is sound for a time manager that only appends snapshots: a cacheable answer
      is the answer in every later store. */
  lemma CacheableViewSnapIsStable(store: Store, later: Store, c: Coords)
    requires CanResolveViewSnap(c)
    requires c.trace.Some? ==> store.snapshots(c.trace.value) <= later.snapshots(c.trace.value)
    requires ResolveViewSnap(store, c).cacheable
    ensures ResolveViewSnap(later, c) == ResolveViewSnap(store, c)
  {
    if !c.time.value.IsSnapOnly() {
      var tr, time := c.trace.value, c.time.value;
      var before, after := store.snapshots(tr), later.snapshots(tr);
      assert after == before + after[|before|..];
      FindFirstAppend(before, after[|before|..], ScheduleRole(time));
    }
  }

  // ---------------------------------------------------------------- liveness

  /** Coordinates made from a live recorder are alive and at the present. */
  lemma RecorderCoordinatesArePresent(store: Store, rec: RecorderRef)
    ensures var c := FromRecorder(store, Some(rec));
      IsAlive(c) && IsAliveAndPresent(store, c) && IsAliveAndReadsPresent(store, c) &&
      IsDeadOrPresent(store, c)
  {
  }

  /** Detaching the recorder makes any coordinates dead, hence "dead or present", and
      neither "alive and present" nor "alive and reads present". */
  lemma WithoutRecorderIsDead(store: Store, c: Coords)
    ensures var d := WithRecorder(c, None);
      !IsAlive(d) && IsDeadOrPresent(store, d) && !IsAliveAndPresent(store, d) &&
      !IsAliveAndReadsPresent(store, d)
  {
  }

  /** Reads-present means present once the time is cut back to its base snap. */
  lemma ReadsPresentIsPresentAtBaseSnap(store: Store, c: Coords)
    requires CanAskPresent(c)
    ensures IsReadsPresent(store, c) <==> IsPresent(store, WithTime(c, Some(SnapOnly(GetSnap(c)))))
  {
  }

  /** Reads-present coordinates that replay steps are not present. */
  lemma ReadsPresentWithStepsIsNotPresent(store: Store, c: Coords)
    requires CanAskPresent(c) && IsReadsPresent(store, c) && !c.time.value.IsSnapOnly()
    ensures !IsPresent(store, c) && IsAliveAndReadsPresent(store, c)
    ensures !IsAliveAndPresent(store, c) && !IsDeadOrPresent(store, c)
  {
  }
}
