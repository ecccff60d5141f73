/** The debugger's coordinates as values: the seven-field key, the NOWHERE sentinel, the
    sparse factories, the `with…` copies, the two equalities, the snap accessors and the
    liveness predicates. A Java `null` field is `None`. */
module Coordinates {
  import opened Wrappers
  import opened Schedules
  import opened Traces

  datatype Coords = Coords(
    trace: Option<TraceRef>,
    recorder: Option<RecorderRef>,
    thread: Option<ThreadRef>,
    view: Option<ViewRef>,
    time: Option<Schedule>,
    frame: Option<int>,
    obj: Option<ObjectRef>)

  /** The sentinel: nothing is set except the zero schedule and frame 0. */
  const NOWHERE: Coords := Coords(None, None, None, None, Some(ZERO), Some(0), None)

  /** Whether the seven arguments are exactly NOWHERE's fields. */
  predicate IsNowhereFields(trace: Option<TraceRef>, recorder: Option<RecorderRef>,
                            thread: Option<ThreadRef>, view: Option<ViewRef>,
                            time: Option<Schedule>, frame: Option<int>, obj: Option<ObjectRef>)
  {
    trace.None? && recorder.None? && thread.None? && view.None? &&
    time == Some(SnapOnly(0)) && frame == Some(0) && obj.None?
  }

  /** `all`: the coordinates holding exactly the given fields, shared as NOWHERE when
      they are NOWHERE's. */
  function All(trace: Option<TraceRef>, recorder: Option<RecorderRef>, thread: Option<ThreadRef>,
               view: Option<ViewRef>, time: Option<Schedule>, frame: Option<int>,
               obj: Option<ObjectRef>): (r: Coords)
    ensures r.trace == trace && r.recorder == recorder && r.thread == thread && r.view == view
    ensures r.time == time && r.frame == frame && r.obj == obj
    ensures r == NOWHERE <==> IsNowhereFields(trace, recorder, thread, view, time, frame, obj)
  {
    if trace == NOWHERE.trace && recorder == NOWHERE.recorder && thread == NOWHERE.thread &&
       view == NOWHERE.view && time == NOWHERE.time && frame == NOWHERE.frame &&
       obj == NOWHERE.obj
    then NOWHERE
    else Coords(trace, recorder, thread, view, time, frame, obj)
  }

  // ---------------------------------------------------------------- sparse factories

  /** `trace(t)`: NOWHERE for no trace, otherwise the trace alone (time and frame absent). */
  function FromTrace(trace: Option<TraceRef>): (r: Coords)
    ensures trace.None? ==> r == NOWHERE
    ensures trace.Some? ==> r == Coords(trace, None, None, None, None, None, None)
  {
    if trace.None? then NOWHERE else All(trace, None, None, None, None, None, None)
  }

  /** `recorder(r)`: the recorder's trace, the recorder, and its live snap as a snap-only
      time. No recorder gives the all-absent coordinates, which are not NOWHERE. */
  function FromRecorder(store: Store, recorder: Option<RecorderRef>): (r: Coords)
    ensures recorder.None? ==> r == Coords(None, None, None, None, None, None, None) != NOWHERE
    ensures recorder.Some? ==>
      && r.trace == Some(store.recorderTrace(recorder.value))
      && r.recorder == recorder
      && r.time == Some(SnapOnly(store.recorderSnap(recorder.value)))
      && r.thread.None? && r.view.None? && r.frame.None? && r.obj.None?
  {
    All(if recorder.None? then None else Some(store.recorderTrace(recorder.value)), recorder,
        None, None,
        if recorder.None? then None else Some(SnapOnly(store.recorderSnap(recorder.value))),
        None, None)
  }

  /** `thread(t)`: the thread's trace and the thread. */
  function FromThread(store: Store, thread: Option<ThreadRef>): (r: Coords)
    ensures thread.None? ==> r == Coords(None, None, None, None, None, None, None)
    ensures thread.Some? ==>
      r == Coords(Some(store.threadTrace(thread.value)), None, thread, None, None, None, None)
  {
    All(if thread.None? then None else Some(store.threadTrace(thread.value)), None, thread,
        None, None, None, None)
  }

  /** `rawView(v)`: the view's trace, the view, and the view's snap as a snap-only time.
      The Java method dereferences `v`, so there is no null case. */
  function RawView(store: Store, view: ViewRef): (r: Coords)
    ensures r.trace == Some(store.viewTrace(view)) && r.view == Some(view)
    ensures r.time == Some(SnapOnly(store.viewSnap(view)))
    ensures r.recorder.None? && r.thread.None? && r.frame.None? && r.obj.None?
  {
    All(Some(store.viewTrace(view)), None, None, Some(view), Some(SnapOnly(store.viewSnap(view))),
        None, None)
  }

  /** The schedule recorded for the scratch snapshot a view shows, if there is one: the
      view's snap is scratch, its trace has a snapshot at that key, and that snapshot
      carries a schedule. */
  function ScratchOrigin(store: Store, view: ViewRef): (r: Option<Schedule>)
    ensures !store.isScratch(store.viewSnap(view)) ==> r.None?
    ensures store.isScratch(store.viewSnap(view)) ==>
      var snaps, snap := store.snapshots(store.viewTrace(view)), store.viewSnap(view);
      && ((forall i :: 0 <= i < |snaps| ==> snaps[i].key != snap) ==> r.None?)
      && (forall i ::
            (0 <= i < |snaps| && snaps[i].key == snap && forall j :: 0 <= j < i ==> snaps[j].key != snap)
              ==> r == snaps[i].schedule)
    ensures r.Some? ==>
      store.isScratch(store.viewSnap(view)) &&
      exists s :: s in store.snapshots(store.viewTrace(view)) &&
        s.key == store.viewSnap(view) && s.schedule == r
  {
    var snap := store.viewSnap(view);
    var snaps := store.snapshots(store.viewTrace(view));
    if !store.isScratch(snap) then None
    else
      var found := SnapshotAt(snaps, snap);
      assert forall i ::
        (0 <= i < |snaps| && snaps[i].key == snap && forall j :: 0 <= j < i ==> snaps[j].key != snap)
          ==> found == Some(snaps[i]) by {
        FindFirstIsUnique(snaps, KeyRole(snap));
      }
      match found
      case None => None
      case Some(snapshot) => snapshot.schedule
  }

  /** `view(v)`: NOWHERE for no view; for a view on a scratch snapshot that records the
      schedule it was emulated from, that schedule on the view's trace (the view itself is
      dropped); otherwise `rawView(v)`. */
  function FromView(store: Store, view: Option<ViewRef>): (r: Coords)
    ensures view.None? ==> r == NOWHERE
    ensures view.Some? && ScratchOrigin(store, view.value).None? ==> r == RawView(store, view.value)
    ensures view.Some? && ScratchOrigin(store, view.value).Some? ==>
      r == Coords(Some(store.viewTrace(view.value)), None, None, None,
                  ScratchOrigin(store, view.value), None, None)
  {
    if view.None? then NOWHERE
    else
      var v := view.value;
      match ScratchOrigin(store, v)
      case None => RawView(store, v)
      case Some(schedule) => WithTime(FromTrace(Some(store.viewTrace(v))), Some(schedule))
  }

  /** `snap(s)`: a snap-only time at `s` and nothing else (frame absent, so never NOWHERE). */
  function FromSnap(snap: int): (r: Coords)
    ensures r == Coords(None, None, None, None, Some(SnapOnly(snap)), None, None) != NOWHERE
  {
    All(None, None, None, None, Some(SnapOnly(snap)), None, None)
  }

  /** `time(schedule)`: the schedule and nothing else. */
  function FromTime(time: Option<Schedule>): (r: Coords)
    ensures r == Coords(None, None, None, None, time, None, None) != NOWHERE
  {
    All(None, None, None, None, time, None, None)
  }

  /** `time(text)`: `time(TraceSchedule.parse(text))`; `parse` is the schedule library's
      parser, `None` when it throws, in which case the exception propagates. */
  function FromTimeText(parse: string -> Option<Schedule>, text: string): (r: Option<Coords>)
    ensures parse(text).None? ==> r.None?
    ensures parse(text).Some? ==> r == Some(Coords(None, None, None, None, parse(text), None, None))
  {
    match parse(text)
    case None => None
    case Some(schedule) => Some(FromTime(Some(schedule)))
  }

  /** `frame(f)`: the frame level and nothing else (time absent, so never NOWHERE). */
  function FromFrame(frame: int): (r: Coords)
    ensures r == Coords(None, None, None, None, None, Some(frame), None) != NOWHERE
  {
    All(None, None, None, None, None, Some(frame), None)
  }

  /** `object(o)`: NOWHERE for no object; otherwise the object's trace, the object, the
      nearest canonical ancestor with a thread role as thread, and the level of the nearest
      canonical ancestor with a stack-frame role as frame. */
  function FromObject(store: Store, obj: Option<ObjectRef>): (r: Coords)
    ensures obj.None? ==> r == NOWHERE
    ensures obj.Some? ==>
      && r.trace == Some(store.objectTrace(obj.value)) && r.obj == obj
      && r.recorder.None? && r.view.None? && r.time.None?
    ensures obj.Some? ==> NearestRole(store.canonicalAncestors(obj.value), store.asThread, r.thread)
    ensures obj.Some? ==> NearestRole(store.canonicalAncestors(obj.value), store.frameLevel, r.frame)
  {
    if obj.None? then NOWHERE
    else
      var o := obj.value;
      var ancestors := store.canonicalAncestors(o);
      All(Some(store.objectTrace(o)), None, FindFirst(ancestors, store.asThread), None, None,
          FindFirst(ancestors, store.frameLevel), obj)
  }

  /** `found` is what the nearest element of `ancestors` with the role gives, or absent
      when none has it. */
  ghost predicate NearestRole<T>(ancestors: seq<ObjectRef>, role: ObjectRef -> Option<T>,
                                 found: Option<T>)
  {
    && (found.None? <==> forall i :: 0 <= i < |ancestors| ==> role(ancestors[i]).None?)
    && (found.Some? ==>
          exists i :: 0 <= i < |ancestors| && role(ancestors[i]) == found &&
            forall j :: 0 <= j < i ==> role(ancestors[j]).None?)
  }

  /** `threadSnap(t, s)`: the thread's trace, the thread, and a snap-only time at `s`. */
  function FromThreadSnap(store: Store, thread: Option<ThreadRef>, snap: int): (r: Coords)
    ensures r == Coords(if thread.None? then None else Some(store.threadTrace(thread.value)),
                        None, thread, None, Some(SnapOnly(snap)), None, None)
    ensures r != NOWHERE
  {
    All(if thread.None? then None else Some(store.threadTrace(thread.value)), None, thread, None,
        Some(SnapOnly(snap)), None, None)
  }

  // ---------------------------------------------------------------- equalities

  /** `equalsIgnoreRecorderAndView`: agreement on trace, thread, time and frame. Despite the
      name, the object is ignored too. */
  predicate EqualsIgnoreRecorderAndView(a: Coords, b: Coords)
    ensures EqualsIgnoreRecorderAndView(a, b) <==>
      a.(recorder := None, view := None, obj := None) == b.(recorder := None, view := None, obj := None)
  {
    if a.trace != b.trace then false
    else if a.thread != b.thread then false
    else if a.time != b.time then false
    else if a.frame != b.frame then false
    else true
  }

  /** `equals(obj)`: `that` is `None` for null or an object of another class. */
  predicate Equals(c: Coords, that: Option<Coords>)
    ensures Equals(c, that) <==> that == Some(c)
  {
    if that.None? then false
    else
      var other := that.value;
      if c.trace != other.trace then false
      else if c.recorder != other.recorder then false
      else if c.thread != other.thread then false
      else if c.view != other.view then false
      else if c.time != other.time then false
      else if c.frame != other.frame then false
      else if c.obj != other.obj then false
      else true
  }

  // ---------------------------------------------------------------- with… copies

  function WithRecorder(c: Coords, newRecorder: Option<RecorderRef>): (r: Coords)
    ensures r == c.(recorder := newRecorder)
  {
    All(c.trace, newRecorder, c.thread, c.view, c.time, c.frame, c.obj)
  }

  function WithThread(c: Coords, newThread: Option<ThreadRef>): (r: Coords)
    ensures r == c.(thread := newThread)
  {
    All(c.trace, c.recorder, newThread, c.view, c.time, c.frame, c.obj)
  }

  /** `withReFoundThread`: when both trace and thread are set, replaces the thread by what
      the trace's thread manager now holds under the thread's key (absent if nothing). */
  function WithReFoundThread(store: Store, c: Coords): (r: Coords)
    ensures c.trace.None? || c.thread.None? ==> r == c
    ensures c.trace.Some? && c.thread.Some? ==>
      r == c.(thread := store.threadByKey(c.trace.value, store.threadKey(c.thread.value)))
  {
    if c.trace.None? || c.thread.None? then c
    else
      var newThread := store.threadByKey(c.trace.value, store.threadKey(c.thread.value));
      if c.thread == newThread then c else WithThread(c, newThread)
  }

  /** `withSnap`: no snap keeps the time; a snap replaces it by a snap-only schedule. */
  function WithSnap(c: Coords, newSnap: Option<int>): (r: Coords)
    ensures newSnap.None? ==> r == c
    ensures newSnap.Some? ==> r == c.(time := Some(SnapOnly(newSnap.value)))
  {
    All(c.trace, c.recorder, c.thread, c.view,
        if newSnap.None? then c.time else Some(SnapOnly(newSnap.value)), c.frame, c.obj)
  }

  function WithTime(c: Coords, newTime: Option<Schedule>): (r: Coords)
    ensures r == c.(time := newTime)
  {
    All(c.trace, c.recorder, c.thread, c.view, newTime, c.frame, c.obj)
  }

  function WithView(c: Coords, newView: Option<ViewRef>): (r: Coords)
    ensures r == c.(view := newView)
  {
    All(c.trace, c.recorder, c.thread, newView, c.time, c.frame, c.obj)
  }

  function WithObject(c: Coords, newObject: Option<ObjectRef>): (r: Coords)
    ensures r == c.(obj := newObject)
  {
    All(c.trace, c.recorder, c.thread, c.view, c.time, c.frame, newObject)
  }

  // ---------------------------------------------------------------- snaps

  /** `getSnap`: the time's snap. The Java method dereferences the time. */
  function GetSnap(c: Coords): (r: int)
    requires c.time.Some?
    ensures c.time == Some(Schedule(r, c.time.value.steps))
    ensures c.time.value.IsSnapOnly() ==> c.time == Some(SnapOnly(r))
  {
    c.time.value.snap
  }

  /** What `getViewSnap` answers for coordinates with nothing cached: the snap to return and
      whether it may be cached. */
  datatype ViewSnapAnswer = ViewSnapAnswer(snap: int, cacheable: bool)

  /** The lookup dereferences the time, and the trace unless the time is snap-only. */
  predicate CanResolveViewSnap(c: Coords)
  {
    c.time.Some? && (c.time.value.IsSnapOnly() || c.trace.Some?)
  }

  /** A snap-only time is its own snap and is cached. Otherwise the first snapshot recorded
      with the time's schedule gives the key and is cached; with no such snapshot the time's
      snap is a fallback that is not cached. */
  function ResolveViewSnap(store: Store, c: Coords): (a: ViewSnapAnswer)
    requires CanResolveViewSnap(c)
    ensures c.time.value.IsSnapOnly() ==> a == ViewSnapAnswer(c.time.value.snap, true)
    ensures !c.time.value.IsSnapOnly() ==>
      (!a.cacheable <==>
         forall i :: 0 <= i < |store.snapshots(c.trace.value)| ==>
           store.snapshots(c.trace.value)[i].schedule != c.time)
    ensures !c.time.value.IsSnapOnly() && !a.cacheable ==> a.snap == c.time.value.snap
    ensures !c.time.value.IsSnapOnly() && a.cacheable ==>
      var snaps := store.snapshots(c.trace.value);
      exists i :: 0 <= i < |snaps| && snaps[i].schedule == c.time && snaps[i].key == a.snap &&
        forall j :: 0 <= j < i ==> snaps[j].schedule != c.time
  {
    var time := c.time.value;
    if time.IsSnapOnly() then ViewSnapAnswer(time.snap, true)
    else match FirstKeyWithSchedule(store.snapshots(c.trace.value), time)
      case None => ViewSnapAnswer(time.snap, false)
      case Some(key) => ViewSnapAnswer(key, true)
  }

  // ---------------------------------------------------------------- liveness

  /** `isAlive`: a live recorder is bound. */
  predicate IsAlive(c: Coords)
    ensures IsAlive(c) <==> WithRecorder(c, None) != c
  {
    c.recorder.Some?
  }

  /** `isReadsPresent` and `isPresent` dereference both the recorder and the time. */
  predicate CanAskPresent(c: Coords)
  {
    c.recorder.Some? && c.time.Some?
  }

  /** `isReadsPresent`: the time's snap is the recorder's live snap. */
  predicate IsReadsPresent(store: Store, c: Coords)
    requires CanAskPresent(c)
    ensures IsReadsPresent(store, c) <==> GetSnap(c) == store.recorderSnap(c.recorder.value)
  {
    store.recorderSnap(c.recorder.value) == c.time.value.snap
  }

  /** `isPresent`: reads present, and the time replays no steps. */
  predicate IsPresent(store: Store, c: Coords)
    requires CanAskPresent(c)
    ensures IsPresent(store, c) <==> IsReadsPresent(store, c) && c.time.value.IsSnapOnly()
    ensures IsPresent(store, c) <==> c.time == Some(SnapOnly(store.recorderSnap(c.recorder.value)))
  {
    store.recorderSnap(c.recorder.value) == c.time.value.snap && c.time.value.IsSnapOnly()
  }

  /** The combinations test `isAlive` first, so only a live coordinate needs a time. */
  predicate CanAskAliveAnd(c: Coords)
  {
    IsAlive(c) ==> c.time.Some?
  }

  predicate IsAliveAndPresent(store: Store, c: Coords)
    requires CanAskAliveAnd(c)
    ensures IsAliveAndPresent(store, c) ==> IsAliveAndReadsPresent(store, c)
    ensures IsAliveAndPresent(store, c) <==>
      c.recorder.Some? && c.time == Some(SnapOnly(store.recorderSnap(c.recorder.value)))
  {
    IsAlive(c) && IsPresent(store, c)
  }

  predicate IsDeadOrPresent(store: Store, c: Coords)
    requires CanAskAliveAnd(c)
    ensures !IsAlive(c) ==> IsDeadOrPresent(store, c)
    ensures IsDeadOrPresent(store, c) <==> !IsAlive(c) || IsAliveAndPresent(store, c)
  {
    !IsAlive(c) || IsPresent(store, c)
  }

  predicate IsAliveAndReadsPresent(store: Store, c: Coords)
    requires CanAskAliveAnd(c)
    ensures IsAliveAndReadsPresent(store, c) ==> IsAlive(c)
    ensures IsAliveAndReadsPresent(store, c) <==>
      c.recorder.Some? && store.recorderSnap(c.recorder.value) == c.time.value.snap
  {
    IsAlive(c) && IsReadsPresent(store, c)
  }
}
