# Debugger coordinates

A model of Ghidra's `DebuggerCoordinates`. This immutable key says where the user is inside
a debugging session: which trace, live-target recorder, thread, program view, time schedule,
stack frame and object-tree node. The model covers:

- the `NOWHERE` sentinel and the normalising `all` factory;
- the sparse factories (`trace`, `recorder`, `thread`, `rawView`, `view`, `snap`, `time`,
  `frame`, `object`, `threadSnap`);
- the `with…` copies, including `withReFoundThread`;
- full `equals` and the hash fixed at construction;
- `equalsIgnoreRecorderAndView`;
- `getSnap` and the memoised `getViewSnap` / `getViewport`;
- the `isAlive` / `isPresent` family.

Layout:

- `wrappers.dfy`: `Option`, and `FindFirst`, the "first element with a role" search used
  for ancestor queries and snapshot lookups.
- `schedules.dfy`: the time schedule, kept abstract as a snap plus a step list. It is
  snap-only when there are no steps.
- `traces.dfy`: identity tokens for traces, recorders, threads, views and objects. Also
  `Store`, every query the class makes of its collaborators at one moment: a recorder's
  trace and live snap, a thread's trace and key, thread lookup by key, a view's trace and
  snap, an object's trace and canonical ancestors with their thread and stack-frame roles,
  each trace's snapshot table, and the scratch-snap test. `Store` is passed in as a
  parameter; it is not modelled itself.
- `coordinates.dfy`: the seven-field value `Coords` (a Java `null` is `None`) and every pure
  operation over it.
- `coordinate_cache.dfy`: the Java object itself, class `DebuggerCoordinates`. It holds the
  immutable key, the hash computed once in the constructor, and the two mutable caches
  (`viewSnap`, `viewport`) that its getters fill in.
- `coordinate_properties.dfy`: lemmas relating several operations.

Where the Java code dereferences a possibly-null field without checking, the model makes
that a `requires`, because the caller must not do it. Each such case is listed under
"## Left out". In particular, the liveness predicates dereference the recorder, so the
model requires one rather than answering false without it. The time is null in `trace(t)`,
`thread(t)`, `frame(f)` and `object(o)`, and the model keeps it absent there.

Some behaviour of the code that the contracts make explicit:

- `recorder(null)` and `thread(null)` give the all-absent coordinates. These are not
  `NOWHERE`, whose time is the zero schedule and whose frame is 0.
- `equalsIgnoreRecorderAndView` also ignores the object.
- `view(v)` drops the view when it maps a scratch snapshot back to its schedule.
- `getViewSnap` never caches its fallback. `getViewport`, however, stores a viewport set at
  that fallback snap, so the viewport keeps it.

## Model

| member | source | states |
|---|---|---|
| Wrappers.FindFirst | Ghidra/Debug/Debugger/src/main/java/ghidra/app/plugin/core/debug/DebuggerCoordinates.java:132-138 | the result is absent exactly when no element has the role; otherwise it is the role's value at an element that every earlier element lacks |
| Traces.SnapshotAt | Ghidra/Debug/Debugger/src/main/java/ghidra/app/plugin/core/debug/DebuggerCoordinates.java:101 | absent exactly when no snapshot has the key; otherwise a snapshot of the table carrying that key |
| Traces.FirstKeyWithSchedule | Ghidra/Debug/Debugger/src/main/java/ghidra/app/plugin/core/debug/DebuggerCoordinates.java:315-323 | absent exactly when no snapshot records the schedule; otherwise the key of the first snapshot that does |
| Coordinates.All | Ghidra/Debug/Debugger/src/main/java/ghidra/app/plugin/core/debug/DebuggerCoordinates.java:48-68 | the result holds exactly the seven arguments, and it is NOWHERE exactly when they are no trace, recorder, thread, view or object, the zero schedule and frame 0 |
| Coordinates.FromTrace | Ghidra/Debug/Debugger/src/main/java/ghidra/app/plugin/core/debug/DebuggerCoordinates.java:70-75 | NOWHERE for no trace; otherwise the trace alone, with time and frame absent |
| Coordinates.FromRecorder | Ghidra/Debug/Debugger/src/main/java/ghidra/app/plugin/core/debug/DebuggerCoordinates.java:77-81 | the recorder's trace, the recorder, and a snap-only time at its live snap; no recorder gives the all-absent coordinates, which differ from NOWHERE |
| Coordinates.FromThread | Ghidra/Debug/Debugger/src/main/java/ghidra/app/plugin/core/debug/DebuggerCoordinates.java:83-85 | the thread's trace and the thread, everything else absent |
| Coordinates.RawView | Ghidra/Debug/Debugger/src/main/java/ghidra/app/plugin/core/debug/DebuggerCoordinates.java:87-90 | the view's trace, the view, and a snap-only time at the view's snap; nothing else |
| Coordinates.ScratchOrigin | Ghidra/Debug/Debugger/src/main/java/ghidra/app/plugin/core/debug/DebuggerCoordinates.java:96-108 | nothing for a non-scratch snap or a key with no snapshot; for a scratch snap, the schedule (possibly none) recorded by the first snapshot at that key; a found schedule always comes from such a snapshot |
| Coordinates.FromView | Ghidra/Debug/Debugger/src/main/java/ghidra/app/plugin/core/debug/DebuggerCoordinates.java:92-110 | NOWHERE for no view; the trace plus the recorded schedule for a scratch snapshot that has one; `rawView` in every other case |
| Coordinates.FromSnap | Ghidra/Debug/Debugger/src/main/java/ghidra/app/plugin/core/debug/DebuggerCoordinates.java:112-114 | a snap-only time and nothing else, never NOWHERE |
| Coordinates.FromTimeText | Ghidra/Debug/Debugger/src/main/java/ghidra/app/plugin/core/debug/DebuggerCoordinates.java:116-118 | a parse failure propagates; otherwise the parsed schedule and nothing else |
| Coordinates.FromTime | Ghidra/Debug/Debugger/src/main/java/ghidra/app/plugin/core/debug/DebuggerCoordinates.java:120-122 | the given time and nothing else, never NOWHERE |
| Coordinates.FromFrame | Ghidra/Debug/Debugger/src/main/java/ghidra/app/plugin/core/debug/DebuggerCoordinates.java:124-126 | the frame level and nothing else, never NOWHERE |
| Coordinates.FromObject | Ghidra/Debug/Debugger/src/main/java/ghidra/app/plugin/core/debug/DebuggerCoordinates.java:128-141 | NOWHERE for no object; otherwise the object's trace and the object, no recorder, view or time, the nearest canonical thread ancestor as thread and the nearest stack-frame ancestor's level as frame (each absent when there is none) |
| Coordinates.FromThreadSnap | Ghidra/Debug/Debugger/src/main/java/ghidra/app/plugin/core/debug/DebuggerCoordinates.java:143-146 | the thread's trace, the thread and a snap-only time at the snap; never NOWHERE |
| Coordinates.EqualsIgnoreRecorderAndView | Ghidra/Debug/Debugger/src/main/java/ghidra/app/plugin/core/debug/DebuggerCoordinates.java:148-163 | true exactly when the two coordinates agree once recorder, view and object are blanked out |
| Coordinates.Equals | Ghidra/Debug/Debugger/src/main/java/ghidra/app/plugin/core/debug/DebuggerCoordinates.java:198-227 | the field-by-field comparison holds exactly when the other object is these same coordinates (false for null or another class) |
| Coordinates.WithRecorder | Ghidra/Debug/Debugger/src/main/java/ghidra/app/plugin/core/debug/DebuggerCoordinates.java:242-244 | the same coordinates with only the recorder replaced |
| Coordinates.WithReFoundThread | Ghidra/Debug/Debugger/src/main/java/ghidra/app/plugin/core/debug/DebuggerCoordinates.java:250-259 | unchanged without a trace or thread; otherwise only the thread replaced, by the thread manager's lookup of the old thread's key (absent if none) |
| Coordinates.WithThread | Ghidra/Debug/Debugger/src/main/java/ghidra/app/plugin/core/debug/DebuggerCoordinates.java:261-263 | the same coordinates with only the thread replaced |
| Coordinates.WithSnap | Ghidra/Debug/Debugger/src/main/java/ghidra/app/plugin/core/debug/DebuggerCoordinates.java:279-282 | unchanged for no snap; otherwise only the time replaced, by the snap-only schedule at the snap |
| Coordinates.WithTime | Ghidra/Debug/Debugger/src/main/java/ghidra/app/plugin/core/debug/DebuggerCoordinates.java:284-286 | the same coordinates with only the time replaced |
| Coordinates.WithView | Ghidra/Debug/Debugger/src/main/java/ghidra/app/plugin/core/debug/DebuggerCoordinates.java:288-290 | the same coordinates with only the view replaced |
| Coordinates.WithObject | Ghidra/Debug/Debugger/src/main/java/ghidra/app/plugin/core/debug/DebuggerCoordinates.java:292-294 | the same coordinates with only the object replaced |
| Coordinates.ResolveViewSnap | Ghidra/Debug/Debugger/src/main/java/ghidra/app/plugin/core/debug/DebuggerCoordinates.java:312-323 | a snap-only time gives its snap, cacheable; otherwise the answer is cacheable exactly when some snapshot records the schedule, and is then the first such key; with none it is the time's snap, not cacheable |
| Coordinates.GetSnap | Ghidra/Debug/Debugger/src/main/java/ghidra/app/plugin/core/debug/DebuggerCoordinates.java:269-271 | the result is the base snap of the time: the time is the schedule that starts at the result and replays its own steps, so a snap-only time is exactly the snap-only schedule at the result |
| Coordinates.IsAlive | Ghidra/Debug/Debugger/src/main/java/ghidra/app/plugin/core/debug/DebuggerCoordinates.java:469-471 | alive exactly when removing the recorder changes the coordinates, i.e. a recorder is bound |
| Coordinates.IsReadsPresent | Ghidra/Debug/Debugger/src/main/java/ghidra/app/plugin/core/debug/DebuggerCoordinates.java:477-479 | reads-present exactly when `getSnap` equals the recorder's live snap |
| Coordinates.IsPresent | Ghidra/Debug/Debugger/src/main/java/ghidra/app/plugin/core/debug/DebuggerCoordinates.java:473-479 | present exactly when reads-present and snap-only, i.e. when the time is the snap-only schedule at the recorder's live snap |
| Coordinates.IsAliveAndPresent | Ghidra/Debug/Debugger/src/main/java/ghidra/app/plugin/core/debug/DebuggerCoordinates.java:481-483 | implies alive-and-reads-present; holds exactly when a recorder is bound and the time is the snap-only schedule at its live snap |
| Coordinates.IsDeadOrPresent | Ghidra/Debug/Debugger/src/main/java/ghidra/app/plugin/core/debug/DebuggerCoordinates.java:485-487 | true whenever no recorder is bound; equivalent to not alive or alive-and-present |
| Coordinates.IsAliveAndReadsPresent | Ghidra/Debug/Debugger/src/main/java/ghidra/app/plugin/core/debug/DebuggerCoordinates.java:489-491 | holds exactly when a recorder is bound and the time's snap is its live snap; implies alive |
| CoordinateCache.DebuggerCoordinates.constructor | Ghidra/Debug/Debugger/src/main/java/ghidra/app/plugin/core/debug/DebuggerCoordinates.java:173-189 | stores the key, fixes the hash as `Objects.hash` of the key, both caches empty |
| CoordinateCache.DebuggerCoordinates.GetViewSnap | Ghidra/Debug/Debugger/src/main/java/ghidra/app/plugin/core/debug/DebuggerCoordinates.java:308-324 | a cached value is returned with nothing changed; otherwise the resolved snap is returned and cached exactly when it is not the fallback; only the view-snap cache changes |
| CoordinateCache.DebuggerCoordinates.GetViewport | Ghidra/Debug/Debugger/src/main/java/ghidra/app/plugin/core/debug/DebuggerCoordinates.java:326-336 | a cached viewport is returned with nothing changed; none without a trace; otherwise a viewport on the trace at the view snap, which is cached, and the view-snap cache follows `getViewSnap` |
| CoordinateCache.EqualCoordinatesHashEqually | Ghidra/Debug/Debugger/src/main/java/ghidra/app/plugin/core/debug/DebuggerCoordinates.java:188-232 | equal coordinates have equal hash codes |
| CoordinateProperties.WithLastWriteWins | Ghidra/Debug/Debugger/src/main/java/ghidra/app/plugin/core/debug/DebuggerCoordinates.java:242-294 | a second copy along the same field overrides the first |
| CoordinateProperties.WithOwnValueIsIdentity | Ghidra/Debug/Debugger/src/main/java/ghidra/app/plugin/core/debug/DebuggerCoordinates.java:242-294 | copying a field's own value, or `withSnap(null)`, gives back the same coordinates |
| CoordinateProperties.SnapRoundTrips | Ghidra/Debug/Debugger/src/main/java/ghidra/app/plugin/core/debug/DebuggerCoordinates.java:269-271 | `getSnap` returns the snap given to `snap`, `withSnap` and `threadSnap`, the view's snap after `rawView`, the live snap after `recorder`, and the base snap of the schedule given to `time`, `withTime` and `all` or recovered by `view` from a scratch snapshot |
| CoordinateProperties.ReFoundThreadIsIdempotent | Ghidra/Debug/Debugger/src/main/java/ghidra/app/plugin/core/debug/DebuggerCoordinates.java:250-259 | re-finding twice equals re-finding once when the thread manager returns the found thread under its own key |
| CoordinateProperties.EqualsImpliesEqualsIgnoreRecorderAndView | Ghidra/Debug/Debugger/src/main/java/ghidra/app/plugin/core/debug/DebuggerCoordinates.java:148-227 | full equality implies the weaker one |
| CoordinateProperties.EqualsIgnoreRecorderAndViewIgnoresThem | Ghidra/Debug/Debugger/src/main/java/ghidra/app/plugin/core/debug/DebuggerCoordinates.java:148-163 | replacing recorder, view or object keeps the weaker equality |
| CoordinateProperties.EqualsIgnoreRecorderAndViewSeesThreadAndTime | Ghidra/Debug/Debugger/src/main/java/ghidra/app/plugin/core/debug/DebuggerCoordinates.java:148-163 | replacing thread or time keeps the weaker equality exactly when the new value is the old one |
| CoordinateProperties.EqualsIgnoreRecorderAndViewIsEquivalence | Ghidra/Debug/Debugger/src/main/java/ghidra/app/plugin/core/debug/DebuggerCoordinates.java:148-163 | the weaker equality is reflexive, symmetric and transitive |
| CoordinateProperties.EqualsIgnoreRecorderAndViewIsStrictlyWeaker | Ghidra/Debug/Debugger/src/main/java/ghidra/app/plugin/core/debug/DebuggerCoordinates.java:148-227 | recorder coordinates and their recorder-less copy are equal ignoring recorder and view, but not equal |
| CoordinateProperties.FromViewKeepsViewOnlyWhenRaw | Ghidra/Debug/Debugger/src/main/java/ghidra/app/plugin/core/debug/DebuggerCoordinates.java:92-110 | `view(v)` has v's trace; it keeps the view exactly when no scratch origin exists, with time at the view's snap, and otherwise has the origin schedule as time |
| CoordinateProperties.ScratchViewMapsToRecordedSchedule | Ghidra/Debug/Debugger/src/main/java/ghidra/app/plugin/core/debug/DebuggerCoordinates.java:96-109 | a view on a scratch snap whose first snapshot at that key records a schedule gives the view's trace plus that schedule, with no view, recorder, thread, frame or object |
| CoordinateProperties.MaterializedViewMapsBackToSchedule | Ghidra/Debug/Debugger/src/main/java/ghidra/app/plugin/core/debug/DebuggerCoordinates.java:92-110 | once a snapshot recording a schedule is stored at a fresh scratch key, a view on that key maps back to the trace plus that schedule |
| CoordinateProperties.MaterializedViewSnapRoundTrip | Ghidra/Debug/Debugger/src/main/java/ghidra/app/plugin/core/debug/DebuggerCoordinates.java:92-110 | the view snap resolved for those coordinates is the scratch key again, cacheable, when that snapshot is the first with the schedule |
| CoordinateProperties.ViewSnapFoundAfterMaterialization | Ghidra/Debug/Debugger/src/main/java/ghidra/app/plugin/core/debug/DebuggerCoordinates.java:315-323 | after a fallback, once a snapshot for the schedule is appended, the lookup answers its key and may cache it |
| CoordinateProperties.CacheableViewSnapIsStable | Ghidra/Debug/Debugger/src/main/java/ghidra/app/plugin/core/debug/DebuggerCoordinates.java:308-323 | a cacheable answer stays the answer in any later store whose snapshot table only grew |
| CoordinateProperties.RecorderCoordinatesArePresent | Ghidra/Debug/Debugger/src/main/java/ghidra/app/plugin/core/debug/DebuggerCoordinates.java:77-81 | `recorder(r)` coordinates are alive, present, reads-present and dead-or-present |
| CoordinateProperties.WithoutRecorderIsDead | Ghidra/Debug/Debugger/src/main/java/ghidra/app/plugin/core/debug/DebuggerCoordinates.java:469-491 | without a recorder: not alive, dead-or-present, neither alive-and-present nor alive-and-reads-present |
| CoordinateProperties.ReadsPresentIsPresentAtBaseSnap | Ghidra/Debug/Debugger/src/main/java/ghidra/app/plugin/core/debug/DebuggerCoordinates.java:473-479 | reads-present exactly when the same coordinates, with the time cut back to the snap-only schedule at its base snap, are present |
| CoordinateProperties.ReadsPresentWithStepsIsNotPresent | Ghidra/Debug/Debugger/src/main/java/ghidra/app/plugin/core/debug/DebuggerCoordinates.java:473-491 | a reads-present time that replays steps is not present, so not dead-or-present, though alive-and-reads-present |

## Left out

- `writeDataState`, `getDomainFile`, `readDataState`: persistence through the save-state
  and XML layer, project and domain-file lookup, and error dialogs. These are I/O and
  service calls. They also depend on the identity test `this == NOWHERE`.
- Instance identity: the value model identifies coordinates by their fields. So `all`'s
  reference comparisons (`==` on the stored `TraceSchedule.ZERO` and the boxed frame) become
  value comparisons, and a schedule equal to ZERO but not identical to it is normalised
  here too.
- `Objects.hash`: kept abstract. The constructor takes it as a function of the seven fields.
- `toString`: formatting only. The `get…` accessors are the datatype's field selectors.
- The `synchronized` locking on the cached getters: concurrency. The caches are modelled
  sequentially.
- `Msg.warn` on a view-snap fallback: logging only.
- TraceSchedule internals: parsing is the `parse` parameter of `FromTimeText`, step syntax
  is an opaque token, and `isSnapOnly` means "no steps".
- The trace database, recorders, the object tree and `DBTraceUtils.isScratch`: abstract
  queries in `Store`.
- Java `long` and `int` widths: the coordinates do no arithmetic, so snaps and frames are
  unbounded integers.
- CoordinateCache.DebuggerCoordinates.GetViewport: the Java method stores the new viewport
  before asking for the view snap. If that call throws (no time, say in `trace(t)`), the
  viewport stays stored without a snap. The requires excludes that call. The returned
  viewport is a token (trace, snap) standing for the time-viewport object.
- Coordinates.RawView: `rawView(null)` throws a null-pointer exception; the parameter is a
  view, never absent, so that call is not modelled.
- Coordinates.GetSnap: `getSnap` throws when the time is null; the requires excludes that.
- Coordinates.IsReadsPresent, Coordinates.IsPresent: both throw when the recorder or the
  time is null; the requires excludes those calls. The `isAlive…`/`isDeadOr…` combinations
  test the recorder first, so they only require a time when a recorder is bound.
- CoordinateCache.DebuggerCoordinates.GetViewSnap: throws when nothing is cached and the
  time is null, or the time replays steps and the trace is null; the requires excludes
  those calls.
- `DebuggerTraceManagerService` (resolution, activation, materialization, the per-trace
  memory and the boolean settings with their listeners) is not part of this model. It is
  an interface whose behaviour is only documented, never implemented, and its futures are
  concurrency.
