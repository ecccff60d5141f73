/** One coordinates instance: its immutable key, the hash fixed at construction, and the
    two compute-once caches the getters fill in. */
module CoordinateCache {
  import opened Wrappers
  import opened Traces
  import opened Coordinates

  /** The time viewport token cached by `getViewport`: the trace it is built on and the
      snap it was set to. */
  datatype Viewport = Viewport(trace: TraceRef, snap: int)

  class DebuggerCoordinates {
    const coords: Coords
    /** `Objects.hash` of the seven fields, computed once. */
    const hash: int
    var viewSnap: Option<int>
    var viewport: Option<Viewport>

    /** The constructor. `objectsHash` stands for `Objects.hash` over the seven fields. */
    constructor (c: Coords, objectsHash: Coords -> int)
      ensures coords == c && hash == objectsHash(c)
      ensures viewSnap.None? && viewport.None?
    {
      coords := c;
      hash := objectsHash(c);
      viewSnap := None;
      viewport := None;
    }

    /** The hash is the one `objectsHash` gives for the key. */
    predicate HashedBy(objectsHash: Coords -> int)
    {
      hash == objectsHash(coords)
    }

    /** A cached value is returned without looking at the time or the trace. */
    predicate CanGetViewSnap()
      reads this
    {
      viewSnap.Some? || CanResolveViewSnap(coords)
    }

    /** `getViewSnap`: the cached snap if there is one; otherwise the resolved snap, cached
        only when it is not the fallback. Nothing but the view-snap cache changes. */
    method GetViewSnap(store: Store) returns (snap: int)
      requires CanGetViewSnap()
      modifies this`viewSnap
      ensures old(viewSnap).Some? ==> snap == old(viewSnap).value && viewSnap == old(viewSnap)
      ensures old(viewSnap).None? ==>
        && snap == ResolveViewSnap(store, coords).snap
        && viewSnap == (if ResolveViewSnap(store, coords).cacheable then Some(snap) else None)
      ensures viewSnap.Some? ==> viewSnap == Some(snap)
    {
      if viewSnap.Some? {
        return viewSnap.value;
      }
      var time := coords.time.value;
      if time.IsSnapOnly() {
        viewSnap := Some(time.snap);
        return time.snap;
      }
      var first := FirstKeyWithSchedule(store.snapshots(coords.trace.value), time);
      if first.None? {
        // the emulator has not produced the snapshot yet; a later call may find it
        return time.snap;
      }
      viewSnap := first;
      return first.value;
    }

    /** The viewport is built only for a trace, and building it asks for the view snap. */
    predicate CanGetViewport()
      reads this
    {
      viewport.Some? || coords.trace.None? || CanGetViewSnap()
    }

    /** `getViewport`: the cached viewport if there is one; none without a trace; otherwise
        a viewport on the trace at the view snap, which is cached, even when that snap was
        the uncached fallback. */
    method GetViewport(store: Store) returns (vp: Option<Viewport>)
      requires CanGetViewport()
      modifies this
      ensures old(viewport).Some? ==>
        vp == old(viewport) && viewport == old(viewport) && viewSnap == old(viewSnap)
      ensures old(viewport).None? && coords.trace.None? ==>
        vp.None? && viewport.None? && viewSnap == old(viewSnap)
      ensures old(viewport).None? && coords.trace.Some? ==>
        && vp.Some? && viewport == vp && vp.value.trace == coords.trace.value
        && (old(viewSnap).Some? ==> vp.value.snap == old(viewSnap).value && viewSnap == old(viewSnap))
        && (old(viewSnap).None? ==>
              && vp.value.snap == ResolveViewSnap(store, coords).snap
              && viewSnap == (if ResolveViewSnap(store, coords).cacheable then Some(vp.value.snap)
                              else None))
    {
      if viewport.Some? {
        return viewport;
      }
      if coords.trace.None? {
        return None;
      }
      var snap := GetViewSnap(store);
      viewport := Some(Viewport(coords.trace.value, snap));
      return viewport;
    }
  }

  /** `equals` implies equal `hashCode`: both hashes come from the same seven fields. */
  lemma EqualCoordinatesHashEqually(a: DebuggerCoordinates, b: DebuggerCoordinates,
                                    objectsHash: Coords -> int)
    requires a.HashedBy(objectsHash) && b.HashedBy(objectsHash)
    requires Equals(a.coords, Some(b.coords))
    ensures a.hash == b.hash
  {
  }
}
