/** What the coordinates read from the trace database and the live recorders. Every
    reference type is an identity token: two tokens are equal exactly when they denote the
    same Java object. */
module Traces {
  import opened Wrappers
  import opened Schedules

  datatype TraceRef = TraceRef(id: nat)
  datatype RecorderRef = RecorderRef(id: nat)
  datatype ThreadRef = ThreadRef(id: nat)
  datatype ViewRef = ViewRef(id: nat)
  datatype ObjectRef = ObjectRef(id: nat)

  /** A row of a trace's time manager: its key and the schedule it was emulated from. */
  datatype Snapshot = Snapshot(key: int, schedule: Option<Schedule>)

  /** The queries the coordinate code makes of its collaborators, at one moment. */
  datatype Store = Store(
    recorderTrace: RecorderRef -> TraceRef,        // TraceRecorder.getTrace
    recorderSnap: RecorderRef -> int,              // TraceRecorder.getSnap, the live snap
    threadTrace: ThreadRef -> TraceRef,            // TraceThread.getTrace
    threadKey: ThreadRef -> int,                   // TraceThread.getKey
    threadByKey: (TraceRef, int) -> Option<ThreadRef>, // the thread manager's getThread
    viewTrace: ViewRef -> TraceRef,                // TraceProgramView.getTrace
    viewSnap: ViewRef -> int,                      // TraceProgramView.getSnap
    objectTrace: ObjectRef -> TraceRef,            // TraceObject.getTrace
    canonicalAncestors: ObjectRef -> seq<ObjectRef>, // nearest first, as the query streams them
    asThread: ObjectRef -> Option<ThreadRef>,      // the node's thread role, if it has one
    frameLevel: ObjectRef -> Option<int>,          // the node's stack-frame role's level
    snapshots: TraceRef -> seq<Snapshot>,          // the time manager's snapshots, in order
    isScratch: int -> bool                         // DBTraceUtils.isScratch
  )

  /** A snapshot carrying key `snap` is itself the hit. */
  function KeyRole(snap: int): Snapshot -> Option<Snapshot>
  {
    (s: Snapshot) => if s.key == snap then Some(s) else None
  }

  /** A snapshot recorded with schedule `time` gives its key. */
  function ScheduleRole(time: Schedule): Snapshot -> Option<int>
  {
    (s: Snapshot) => if s.schedule == Some(time) then Some(s.key) else None
  }

  /** `getSnapshot(snap, false)`: the snapshot with key `snap`, never creating one. */
  function SnapshotAt(snaps: seq<Snapshot>, snap: int): (r: Option<Snapshot>)
    ensures r.None? <==> forall i :: 0 <= i < |snaps| ==> snaps[i].key != snap
    ensures r.Some? ==> r.value.key == snap && r.value in snaps
  {
    FindFirst(snaps, KeyRole(snap))
  }

  /** The key of the first snapshot of `getSnapshotsWithSchedule(time)`. */
  function FirstKeyWithSchedule(snaps: seq<Snapshot>, time: Schedule): (r: Option<int>)
    ensures r.None? <==> forall i :: 0 <= i < |snaps| ==> snaps[i].schedule != Some(time)
    ensures r.Some? ==>
      exists i :: 0 <= i < |snaps| && snaps[i].schedule == Some(time) && snaps[i].key == r.value
        && forall j :: 0 <= j < i ==> snaps[j].schedule != Some(time)
  {
    FindFirst(snaps, ScheduleRole(time))
  }

  /** The store after `snap` has been appended to `trace`'s time manager, as the emulation
      service does when it materializes a schedule. */
  function AddSnapshot(store: Store, trace: TraceRef, snap: Snapshot): (r: Store)
    ensures r.snapshots(trace) == store.snapshots(trace) + [snap]
    ensures forall t :: t != trace ==> r.snapshots(t) == store.snapshots(t)
  {
    store.(snapshots := (t: TraceRef) => if t == trace then store.snapshots(t) + [snap]
                                         else store.snapshots(t))
  }
}
