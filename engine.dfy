/**
 * The application state and the steps that change it: the two halves of each
 * feed's fetch (around the network wait), hydration from the session cache,
 * the scope filter, the status computation, and the compositions that run
 * them in order ("refresh all", a per-feed refresh tick, a scope change).
 *
 * Network responses are given as `Outcome` values; the current time is a
 * parameter; events dispatched to the display are not modelled.
 */
module Engine {
  import opened Wrappers
  import opened Seqs
  import opened Feeds
  import opened Dedup
  import opened Scope
  import opened Status

  /** The outcome of the most recent fetch attempt of a feed. */
  datatype FetchStatus = Idle | Loading | Ok | Error

  /** One feed's slot in the state: `{ raw, filtered, status, lastFetch }`. */
  datatype Feed<T> = Feed(raw: seq<T>, filtered: seq<T>, status: FetchStatus, lastFetch: Option<int>)

  /**
   * What one fetch attempt came back with: a failure (a transport error or a
   * non-ok response), or the feed's records together with whether writing the
   * fetch timestamp to session storage succeeded.
   */
  datatype Outcome<T> = NetworkFailed | Fetched(records: seq<T>, stampSaved: bool)

  /** A feed's cache entry: its raw records and, if stored, its fetch timestamp. */
  datatype CacheEntry<T> = CacheEntry(records: seq<T>, stamp: Option<int>)

  /** The four cache entries read at start-up; `None` when missing or unreadable. */
  datatype Cache = Cache(
    fema: Option<CacheEntry<Declaration>>,
    nws: Option<CacheEntry<Alert>>,
    fires: Option<CacheEntry<Fire>>,
    quakes: Option<CacheEntry<Quake>>)

  /** `Number(stamp) || null`: a missing or zero timestamp reads as never fetched. */
  function StampOrNull(stamp: Option<int>): (r: Option<int>)
    ensures r.Some? <==> stamp.Some? && stamp.value != 0
    ensures r.Some? ==> r == stamp
  {
    if stamp.Some? && stamp.value != 0 then stamp else None
  }

  /** A feed after hydration from its cache entry: unchanged without one; otherwise raw and stamp restored, status ok. */
  function Hydrated<T>(f: Feed<T>, entry: Option<CacheEntry<T>>): (g: Feed<T>)
    ensures entry.None? ==> g == f
    ensures entry.Some? ==> g.raw == entry.value.records && g.status == Ok && g.filtered == f.filtered
    ensures entry.Some? ==> (g.lastFetch.Some? <==> entry.value.stamp.Some? && entry.value.stamp.value != 0)
  {
    if entry.None? then f
    else f.(raw := entry.value.records, status := Ok, lastFetch := StampOrNull(entry.value.stamp))
  }

  /**
   * How a completed fetch leaves a feed's status and stamp: a failure marks
   * the feed as errored and keeps its stamp; a success stamps it with `now`
   * and is ok unless the stamp could not be stored.
   */
  ghost predicate Settled<T>(before: Feed<T>, after: Feed<T>, out: Outcome<T>, now: int)
  {
    match out
    case NetworkFailed => after.status == Error && after.lastFetch == before.lastFetch
    case Fetched(_, saved) => after.status == (if saved then Ok else Error) && after.lastFetch == Some(now)
  }

  /**
   * The first half of `computeStatus`: run the four checks in priority order
   * on the filtered views, pushing at most one item per check.
   */
  method CollectActions(alerts: seq<Alert>, decls: seq<Declaration>, qs: seq<Quake>, fs: seq<Fire>, now: int)
    returns (actions: seq<ActionItem>)
    ensures actions == Actions(alerts, decls, qs, fs, now)
  {
    actions := [];

    var extremeAlerts := Filter(ExtremeP(), alerts);
    if |extremeAlerts| > 0 {
      actions := actions + [AlertItem(extremeAlerts[0])];
    }
    assert actions == AlertBlock(alerts);

    var newDecl := Filter(NewDeclarationAt(now), decls);
    if |newDecl| > 0 {
      actions := actions + [DeclarationItem(newDecl[0])];
    }
    assert actions == AlertBlock(alerts) + DeclarationBlock(decls, now);

    var bigQuakes := Filter(ActionQuakeP(), qs);
    if |bigQuakes| > 0 {
      actions := actions + [QuakeItem(bigQuakes[0])];
    }
    assert actions == AlertBlock(alerts) + DeclarationBlock(decls, now) + QuakeBlock(qs);

    var bigFires := Filter(UncontainedLargeFireP(), fs);
    if |bigFires| > 0 {
      actions := actions + [FireItem(bigFires[0])];
    }
  }

  /**
   * The second half of `computeStatus`: danger if any collected item is
   * danger, warning if there is any item, otherwise warning when a Severe
   * alert or a large fire is in view, else success.
   */
  method DetermineLevel(alerts: seq<Alert>, decls: seq<Declaration>, qs: seq<Quake>, fs: seq<Fire>, now: int,
                        actions: seq<ActionItem>)
    returns (level: Kind)
    requires actions == Actions(alerts, decls, qs, fs, now)
    ensures level == Level(alerts, decls, qs, fs, now)
  {
    if AnyDanger(actions) {
      level := Danger;
    } else if |actions| > 0 {
      level := Warning;
    } else {
      var severeAlerts := Filter(SevereP(), alerts);
      var activeBigFires := Filter(LargeFireP(), fs);
      if |severeAlerts| > 0 || |activeBigFires| > 0 {
        level := Warning;
      } else {
        level := Success;
      }
    }
  }

  /** All fields of the state, for saying what a step leaves alone. */
  datatype State = State(
    selectedStates: seq<string>,
    fema: Feed<Declaration>,
    nws: Feed<Alert>,
    fires: Feed<Fire>,
    quakes: Feed<Quake>,
    statusLevel: Kind,
    needsAction: seq<ActionItem>)

  /** The engine's single, process-wide state object. */
  class Dashboard {
    var selectedStates: seq<string>
    var fema: Feed<Declaration>
    var nws: Feed<Alert>
    var fires: Feed<Fire>
    var quakes: Feed<Quake>
    var statusLevel: Kind
    var needsAction: seq<ActionItem>

    function Snapshot(): State
      reads this
    {
      State(selectedStates, fema, nws, fires, quakes, statusLevel, needsAction)
    }

    /** Every filtered view is an order-preserving subsequence of its raw records. */
    ghost predicate FilteredWithinRaw()
      reads this
    {
      && IsSubseq(fema.filtered, fema.raw)
      && IsSubseq(nws.filtered, nws.raw)
      && IsSubseq(fires.filtered, fires.raw)
      && IsSubseq(quakes.filtered, quakes.raw)
    }

    /** Every filtered view is what the scope filter computes from the raw records, the selection and `now`. */
    ghost predicate ScopeApplied(now: int)
      reads this
    {
      && fema.filtered == ScopedDeclarations(fema.raw, selectedStates, now)
      && nws.filtered == ScopedAlerts(nws.raw, selectedStates)
      && fires.filtered == ScopedFires(fires.raw, selectedStates)
      && quakes.filtered == ScopedQuakes(quakes.raw, selectedStates)
    }

    /** The needs-action list and the level are those the filtered views call for at `now`. */
    ghost predicate StatusCurrent(now: int)
      reads this
    {
      && needsAction == NeedsAction(nws.filtered, fema.filtered, quakes.filtered, fires.filtered, now)
      && statusLevel == Level(nws.filtered, fema.filtered, quakes.filtered, fires.filtered, now)
    }

    /** The start-up state: nothing selected, every feed empty and idle, level success. */
    constructor ()
      ensures selectedStates == []
      ensures fema == Feed([], [], Idle, None) && nws == Feed([], [], Idle, None)
      ensures fires == Feed([], [], Idle, None) && quakes == Feed([], [], Idle, None)
      ensures statusLevel == Success && needsAction == []
      ensures FilteredWithinRaw() && ScopeApplied(0) && StatusCurrent(0)
    {
      selectedStates := [];
      fema := Feed([], [], Idle, None);
      nws := Feed([], [], Idle, None);
      fires := Feed([], [], Idle, None);
      quakes := Feed([], [], Idle, None);
      statusLevel := Success;
      needsAction := [];
    }

    // ---- fetchFema ----

    /** Before the network wait: the feed is marked loading and nothing else changes. */
    method BeginFemaFetch()
      modifies this
      ensures fema == old(fema).(status := Loading)
      ensures Snapshot() == old(Snapshot()).(fema := fema)
    {
      fema := fema.(status := Loading);
    }

    /**
     * After the network wait. A failure only marks the feed as errored: raw,
     * filtered and stamp are kept. A response replaces raw wholesale with its
     * first record per disaster number and narrows filtered to the active
     * declarations (the scope is applied later by the caller).
     */
    method EndFemaFetch(out: Outcome<Declaration>, now: int)
      modifies this
      ensures Settled(old(fema), fema, out, now)
      ensures out.NetworkFailed? ==> fema == old(fema).(status := Error)
      ensures out.Fetched? ==>
                fema.raw == FirstPerNumber(out.records) && fema.filtered == Filter(DeclarationActiveAt(now), fema.raw)
      ensures IsSubseq(fema.filtered, fema.raw) || out.NetworkFailed?
      ensures Snapshot() == old(Snapshot()).(fema := fema)
    {
      match out
      case NetworkFailed =>
        fema := fema.(status := Error);
      case Fetched(all, stampSaved) =>
        var kept := DedupByDisasterNumber(all);
        fema := fema.(raw := kept);
        fema := fema.(filtered := Filter(DeclarationActiveAt(now), kept));
        fema := fema.(lastFetch := Some(now));
        fema := fema.(status := Ok);
        if !stampSaved {
          fema := fema.(status := Error);
        }
    }

    // ---- fetchNws ----

    method BeginNwsFetch()
      modifies this
      ensures nws == old(nws).(status := Loading)
      ensures Snapshot() == old(Snapshot()).(nws := nws)
    {
      nws := nws.(status := Loading);
    }

    /**
     * A response replaces raw wholesale but, unlike the other feeds, leaves
     * filtered as it was until the scope filter next runs.
     */
    method EndNwsFetch(out: Outcome<Alert>, now: int)
      modifies this
      ensures Settled(old(nws), nws, out, now)
      ensures nws.filtered == old(nws).filtered
      ensures nws.raw == if out.Fetched? then out.records else old(nws).raw
      ensures Snapshot() == old(Snapshot()).(nws := nws)
    {
      match out
      case NetworkFailed =>
        nws := nws.(status := Error);
      case Fetched(alerts, stampSaved) =>
        nws := nws.(raw := alerts);
        nws := nws.(lastFetch := Some(now));
        nws := nws.(status := Ok);
        if !stampSaved {
          nws := nws.(status := Error);
        }
    }

    // ---- fetchFires ----

    method BeginFiresFetch()
      modifies this
      ensures fires == old(fires).(status := Loading)
      ensures Snapshot() == old(Snapshot()).(fires := fires)
    {
      fires := fires.(status := Loading);
    }

    /** A response replaces raw wholesale and narrows filtered to the active fires. */
    method EndFiresFetch(out: Outcome<Fire>, now: int)
      modifies this
      ensures Settled(old(fires), fires, out, now)
      ensures out.NetworkFailed? ==> fires == old(fires).(status := Error)
      ensures out.Fetched? ==> fires.raw == out.records && fires.filtered == Filter(FireActiveP(), fires.raw)
      ensures IsSubseq(fires.filtered, fires.raw) || out.NetworkFailed?
      ensures Snapshot() == old(Snapshot()).(fires := fires)
    {
      match out
      case NetworkFailed =>
        fires := fires.(status := Error);
      case Fetched(all, stampSaved) =>
        fires := fires.(raw := all);
        fires := fires.(filtered := Filter(FireActiveP(), all));
        fires := fires.(lastFetch := Some(now));
        fires := fires.(status := Ok);
        if !stampSaved {
          fires := fires.(status := Error);
        }
    }

    // ---- fetchQuakes ----

    method BeginQuakesFetch()
      modifies this
      ensures quakes == old(quakes).(status := Loading)
      ensures Snapshot() == old(Snapshot()).(quakes := quakes)
    {
      quakes := quakes.(status := Loading);
    }

    /** A response replaces raw wholesale and narrows filtered to the significant quakes. */
    method EndQuakesFetch(out: Outcome<Quake>, now: int)
      modifies this
      ensures Settled(old(quakes), quakes, out, now)
      ensures out.NetworkFailed? ==> quakes == old(quakes).(status := Error)
      ensures out.Fetched? ==> quakes.raw == out.records && quakes.filtered == Filter(QuakeSignificantP(), quakes.raw)
      ensures IsSubseq(quakes.filtered, quakes.raw) || out.NetworkFailed?
      ensures Snapshot() == old(Snapshot()).(quakes := quakes)
    {
      match out
      case NetworkFailed =>
        quakes := quakes.(status := Error);
      case Fetched(all, stampSaved) =>
        quakes := quakes.(raw := all);
        quakes := quakes.(filtered := Filter(QuakeSignificantP(), all));
        quakes := quakes.(lastFetch := Some(now));
        quakes := quakes.(status := Ok);
        if !stampSaved {
          quakes := quakes.(status := Error);
        }
    }

    // ---- filterBySelectedStates ----

    /** Recompute every filtered view from raw, the selection and `now`; nothing else changes. */
    method FilterBySelectedStates(now: int)
      modifies this
      ensures fema == old(fema).(filtered := ScopedDeclarations(old(fema).raw, selectedStates, now))
      ensures nws == old(nws).(filtered := ScopedAlerts(old(nws).raw, selectedStates))
      ensures fires == old(fires).(filtered := ScopedFires(old(fires).raw, selectedStates))
      ensures quakes == old(quakes).(filtered := ScopedQuakes(old(quakes).raw, selectedStates))
      ensures selectedStates == old(selectedStates)
      ensures statusLevel == old(statusLevel) && needsAction == old(needsAction)
      ensures ScopeApplied(now) && FilteredWithinRaw()
    {
      var sel := selectedStates;
      fema := fema.(filtered := Filter(d => KeepDeclaration(d, sel, now), fema.raw));
      nws := nws.(filtered := Filter(a => KeepAlert(a, sel), nws.raw));
      fires := fires.(filtered := Filter(f => KeepFire(f, sel), fires.raw));
      quakes := quakes.(filtered := Filter(q => KeepQuake(q, sel), quakes.raw));
    }

    // ---- computeStatus ----

    /**
     * Run the four checks in priority order, collecting at most one item per
     * check, publish the first three, and derive the level. Only the list and
     * the level change; they depend on nothing but the filtered views and
     * `now`, so running it again at the same time changes nothing: when they
     * are already current, the state is left exactly as it was.
     */
    method ComputeStatus(now: int)
      modifies this
      ensures StatusCurrent(now)
      ensures Snapshot() == old(Snapshot()).(statusLevel := statusLevel, needsAction := needsAction)
      ensures old(StatusCurrent(now)) ==> Snapshot() == old(Snapshot())
    {
      var alerts, decls, qs, fs := nws.filtered, fema.filtered, quakes.filtered, fires.filtered;
      var actions := CollectActions(alerts, decls, qs, fs, now);
      var shown := if |actions| <= 3 then actions else actions[..3];
      assert shown == NeedsAction(alerts, decls, qs, fs, now);
      var level := DetermineLevel(alerts, decls, qs, fs, now, actions);
      needsAction, statusLevel := shown, level;
    }

    // ---- loadCachedData ----

    /**
     * Hydrate each feed that has a cache entry: raw and stamp restored,
     * status ok. Filtered views, the selection, list and level are untouched.
     */
    method LoadCachedData(cache: Cache)
      modifies this
      ensures fema == Hydrated(old(fema), cache.fema)
      ensures nws == Hydrated(old(nws), cache.nws)
      ensures fires == Hydrated(old(fires), cache.fires)
      ensures quakes == Hydrated(old(quakes), cache.quakes)
      ensures selectedStates == old(selectedStates)
      ensures statusLevel == old(statusLevel) && needsAction == old(needsAction)
    {
      if cache.fema.Some? {
        fema := fema.(raw := cache.fema.value.records);
        fema := fema.(status := Ok);
        fema := fema.(lastFetch := StampOrNull(cache.fema.value.stamp));
      }
      if cache.nws.Some? {
        nws := nws.(raw := cache.nws.value.records);
        nws := nws.(status := Ok);
        nws := nws.(lastFetch := StampOrNull(cache.nws.value.stamp));
      }
      if cache.fires.Some? {
        fires := fires.(raw := cache.fires.value.records);
        fires := fires.(status := Ok);
        fires := fires.(lastFetch := StampOrNull(cache.fires.value.stamp));
      }
      if cache.quakes.Some? {
        quakes := quakes.(raw := cache.quakes.value.records);
        quakes := quakes.(status := Ok);
        quakes := quakes.(lastFetch := StampOrNull(cache.quakes.value.stamp));
      }
    }

    // ---- fetchAllData ----

    /**
     * Fetch all four feeds, then apply the scope and recompute the status.
     * A failed feed keeps its raw records and stamp and reports an error; the
     * others are replaced; the published views, list and level are coherent
     * with whatever each feed now holds. A failed feed whose view was already
     * up to date for `now` comes out exactly as it was, except for its status.
     */
    method FetchAllData(femaOut: Outcome<Declaration>, nwsOut: Outcome<Alert>,
                        firesOut: Outcome<Fire>, quakesOut: Outcome<Quake>, now: int)
      modifies this
      ensures fema.raw == if femaOut.Fetched? then FirstPerNumber(femaOut.records) else old(fema).raw
      ensures nws.raw == if nwsOut.Fetched? then nwsOut.records else old(nws).raw
      ensures fires.raw == if firesOut.Fetched? then firesOut.records else old(fires).raw
      ensures quakes.raw == if quakesOut.Fetched? then quakesOut.records else old(quakes).raw
      ensures Settled(old(fema), fema, femaOut, now) && Settled(old(nws), nws, nwsOut, now)
      ensures Settled(old(fires), fires, firesOut, now) && Settled(old(quakes), quakes, quakesOut, now)
      ensures selectedStates == old(selectedStates)
      ensures ScopeApplied(now) && FilteredWithinRaw() && StatusCurrent(now)
      ensures old(ScopeApplied(now)) && femaOut.NetworkFailed? ==> fema == old(fema).(status := Error)
      ensures old(ScopeApplied(now)) && nwsOut.NetworkFailed? ==> nws == old(nws).(status := Error)
      ensures old(ScopeApplied(now)) && firesOut.NetworkFailed? ==> fires == old(fires).(status := Error)
      ensures old(ScopeApplied(now)) && quakesOut.NetworkFailed? ==> quakes == old(quakes).(status := Error)
    {
      BeginFemaFetch();
      BeginNwsFetch();
      BeginFiresFetch();
      BeginQuakesFetch();
      EndFemaFetch(femaOut, now);
      EndNwsFetch(nwsOut, now);
      EndFiresFetch(firesOut, now);
      EndQuakesFetch(quakesOut, now);
      FilterBySelectedStates(now);
      ComputeStatus(now);
    }

    // ---- The auto-refresh callbacks: one feed's fetch, then scope and status ----

    method RefreshFema(out: Outcome<Declaration>, now: int)
      modifies this
      ensures fema.raw == if out.Fetched? then FirstPerNumber(out.records) else old(fema).raw
      ensures Settled(old(fema), fema, out, now)
      ensures nws == old(nws).(filtered := nws.filtered)
      ensures fires == old(fires).(filtered := fires.filtered)
      ensures quakes == old(quakes).(filtered := quakes.filtered)
      ensures selectedStates == old(selectedStates)
      ensures ScopeApplied(now) && FilteredWithinRaw() && StatusCurrent(now)
      ensures old(ScopeApplied(now)) ==> nws == old(nws) && fires == old(fires) && quakes == old(quakes)
      ensures old(ScopeApplied(now)) && out.NetworkFailed? ==> fema == old(fema).(status := Error)
    {
      BeginFemaFetch();
      EndFemaFetch(out, now);
      FilterBySelectedStates(now);
      ComputeStatus(now);
    }

    method RefreshNws(out: Outcome<Alert>, now: int)
      modifies this
      ensures nws.raw == if out.Fetched? then out.records else old(nws).raw
      ensures Settled(old(nws), nws, out, now)
      ensures fema == old(fema).(filtered := fema.filtered)
      ensures fires == old(fires).(filtered := fires.filtered)
      ensures quakes == old(quakes).(filtered := quakes.filtered)
      ensures selectedStates == old(selectedStates)
      ensures ScopeApplied(now) && FilteredWithinRaw() && StatusCurrent(now)
      ensures old(ScopeApplied(now)) ==> fema == old(fema) && fires == old(fires) && quakes == old(quakes)
      ensures old(ScopeApplied(now)) && out.NetworkFailed? ==> nws == old(nws).(status := Error)
    {
      BeginNwsFetch();
      EndNwsFetch(out, now);
      FilterBySelectedStates(now);
      ComputeStatus(now);
    }

    method RefreshFires(out: Outcome<Fire>, now: int)
      modifies this
      ensures fires.raw == if out.Fetched? then out.records else old(fires).raw
      ensures Settled(old(fires), fires, out, now)
      ensures fema == old(fema).(filtered := fema.filtered)
      ensures nws == old(nws).(filtered := nws.filtered)
      ensures quakes == old(quakes).(filtered := quakes.filtered)
      ensures selectedStates == old(selectedStates)
      ensures ScopeApplied(now) && FilteredWithinRaw() && StatusCurrent(now)
      ensures old(ScopeApplied(now)) ==> fema == old(fema) && nws == old(nws) && quakes == old(quakes)
      ensures old(ScopeApplied(now)) && out.NetworkFailed? ==> fires == old(fires).(status := Error)
    {
      BeginFiresFetch();
      EndFiresFetch(out, now);
      FilterBySelectedStates(now);
      ComputeStatus(now);
    }

    method RefreshQuakes(out: Outcome<Quake>, now: int)
      modifies this
      ensures quakes.raw == if out.Fetched? then out.records else old(quakes).raw
      ensures Settled(old(quakes), quakes, out, now)
      ensures fema == old(fema).(filtered := fema.filtered)
      ensures nws == old(nws).(filtered := nws.filtered)
      ensures fires == old(fires).(filtered := fires.filtered)
      ensures selectedStates == old(selectedStates)
      ensures ScopeApplied(now) && FilteredWithinRaw() && StatusCurrent(now)
      ensures old(ScopeApplied(now)) ==> fema == old(fema) && nws == old(nws) && fires == old(fires)
      ensures old(ScopeApplied(now)) && out.NetworkFailed? ==> quakes == old(quakes).(status := Error)
    {
      BeginQuakesFetch();
      EndQuakesFetch(out, now);
      FilterBySelectedStates(now);
      ComputeStatus(now);
    }

    /** A new selection: store it, then re-apply the scope and recompute the status. */
    method ChangeScope(sel: seq<string>, now: int)
      modifies this
      ensures selectedStates == sel
      ensures fema == old(fema).(filtered := fema.filtered) && nws == old(nws).(filtered := nws.filtered)
      ensures fires == old(fires).(filtered := fires.filtered) && quakes == old(quakes).(filtered := quakes.filtered)
      ensures ScopeApplied(now) && FilteredWithinRaw() && StatusCurrent(now)
    {
      selectedStates := sel;
      FilterBySelectedStates(now);
      ComputeStatus(now);
    }
  }
}
