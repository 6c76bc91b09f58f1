/**
 * The live log tail of a service's detail page
 * (ui/src/pages/internal/details_section/ServiceLogsSection.tsx):
 * a deduplicating merge of polled batches into the view's buffer, the
 * "scrolled to the bottom" test that decides whether the view follows the
 * tail, and the self-rescheduling poll loop with its cleanup.
 */
module LogTail {
  import opened Wrappers
  import opened Seqs

  /** One log line as the UI receives it (ServiceLog in services.ts). */
  datatype LogEntry = LogEntry(id: int, serviceId: string, stream: string, message: string, timestamp: string)

  /** The ids present in a buffer (`new Set(current.map(log => log.id))`). */
  function Ids(logs: seq<LogEntry>): (ids: set<int>)
    ensures forall e :: e in logs ==> e.id in ids
    ensures forall id :: id in ids ==> exists e :: e in logs && e.id == id
  {
    set e | e in logs :: e.id
  }

  /** `incoming.filter(log => !existingIds.has(log.id))`. */
  function FilterNew(incoming: seq<LogEntry>, existing: set<int>): (kept: seq<LogEntry>)
    ensures |kept| <= |incoming|
    ensures forall e :: e in kept <==> e in incoming && e.id !in existing
  {
    if incoming == [] then []
    else if incoming[0].id in existing then FilterNew(incoming[1..], existing)
    else [incoming[0]] + FilterNew(incoming[1..], existing)
  }

  /** mergeLogsUnique: the current buffer followed by the incoming entries whose id is new. */
  function MergeLogsUnique(current: seq<LogEntry>, incoming: seq<LogEntry>): (merged: seq<LogEntry>)
    ensures |merged| >= |current| && merged[..|current|] == current
    ensures forall e :: e in merged <==> e in current || (e in incoming && e.id !in Ids(current))
    ensures incoming == [] ==> merged == current
  {
    current + FilterNew(incoming, Ids(current))
  }

  /** The kept incoming entries stay in their original relative order. */
  lemma {:induction false} FilterNewIsSubsequence(incoming: seq<LogEntry>, existing: set<int>)
    ensures IsSubsequence(FilterNew(incoming, existing), incoming)
  {
    if incoming != [] {
      FilterNewIsSubsequence(incoming[1..], existing);
      var rest := FilterNew(incoming[1..], existing);
      if incoming[0].id in existing {
        SubsequenceDropsHead(rest, incoming);
      } else {
        assert FilterNew(incoming, existing) == [incoming[0]] + rest;
        assert ([incoming[0]] + rest)[1..] == rest;
      }
    }
  }

  /** Merging keeps the current buffer and appends new entries in their incoming order. */
  lemma MergePreservesOrder(current: seq<LogEntry>, incoming: seq<LogEntry>)
    ensures var merged := MergeLogsUnique(current, incoming);
      merged[..|current|] == current && IsSubsequence(merged[|current|..], incoming)
  {
    var merged := MergeLogsUnique(current, incoming);
    assert merged[|current|..] == FilterNew(incoming, Ids(current));
    FilterNewIsSubsequence(incoming, Ids(current));
  }

  lemma {:induction false} FilterNewOfKnown(incoming: seq<LogEntry>, existing: set<int>)
    requires forall e :: e in incoming ==> e.id in existing
    ensures FilterNew(incoming, existing) == []
  {
    if incoming != [] {
      FilterNewOfKnown(incoming[1..], existing);
    }
  }

  /** Merging the same batch a second time adds nothing. */
  lemma MergeIdempotent(current: seq<LogEntry>, incoming: seq<LogEntry>)
    ensures MergeLogsUnique(MergeLogsUnique(current, incoming), incoming) == MergeLogsUnique(current, incoming)
  {
    var merged := MergeLogsUnique(current, incoming);
    forall e | e in incoming ensures e.id in Ids(merged) {
      if e.id !in Ids(current) {
        assert e in merged;
      } else {
        var w :| w in current && w.id == e.id;
        assert w in merged;
      }
    }
    FilterNewOfKnown(incoming, Ids(merged));
    assert merged + [] == merged;
  }

  /** No two entries of a buffer share an id. */
  predicate UniqueIds(logs: seq<LogEntry>) {
    forall i, j :: 0 <= i < j < |logs| ==> logs[i].id != logs[j].id
  }

  lemma {:induction false} FilterNewUnique(incoming: seq<LogEntry>, existing: set<int>)
    requires UniqueIds(incoming)
    ensures UniqueIds(FilterNew(incoming, existing))
  {
    if incoming != [] {
      UniqueTail(incoming);
      FilterNewUnique(incoming[1..], existing);
      if incoming[0].id !in existing {
        var rest := FilterNew(incoming[1..], existing);
        forall e | e in rest ensures e.id != incoming[0].id {
          var k :| 0 <= k < |incoming[1..]| && incoming[1..][k] == e;
          assert incoming[k + 1] == e;
        }
        UniqueCons(incoming[0], rest);
      }
    }
  }

  /** The tail of a duplicate-free sequence is duplicate-free. */
  lemma UniqueTail(logs: seq<LogEntry>)
    requires logs != [] && UniqueIds(logs)
    ensures UniqueIds(logs[1..])
  {
    forall i, j | 0 <= i < j < |logs| - 1 ensures logs[1..][i].id != logs[1..][j].id {
      assert logs[1..][i] == logs[i + 1] && logs[1..][j] == logs[j + 1];
    }
  }

  /** An entry whose id is not among a duplicate-free sequence's can go in front of it. */
  lemma UniqueCons(x: LogEntry, rest: seq<LogEntry>)
    requires UniqueIds(rest)
    requires forall e :: e in rest ==> e.id != x.id
    ensures UniqueIds([x] + rest)
  {
    var r := [x] + rest;
    forall i, j | 0 <= i < j < |r| ensures r[i].id != r[j].id {
      assert r[j] == rest[j - 1];
      if i > 0 {
        assert r[i] == rest[i - 1];
      }
    }
  }

  /** A duplicate-free buffer stays duplicate-free when the batch itself is duplicate-free. */
  lemma MergeKeepsIdsUnique(current: seq<LogEntry>, incoming: seq<LogEntry>)
    requires UniqueIds(current) && UniqueIds(incoming)
    ensures UniqueIds(MergeLogsUnique(current, incoming))
  {
    var kept := FilterNew(incoming, Ids(current));
    FilterNewUnique(incoming, Ids(current));
    var merged := current + kept;
    forall i, j | 0 <= i < j < |merged| ensures merged[i].id != merged[j].id {
      if j >= |current| && i < |current| {
        assert merged[j] in kept;
        assert merged[i] in current;
      } else if i >= |current| {
        assert merged[i] == kept[i - |current|] && merged[j] == kept[j - |current|];
      }
    }
  }

  /**
   * The merge filters only against the current buffer: two entries of one batch
   * that share a new id are both kept.
   */
  lemma DuplicatesWithinBatchSurvive(e: LogEntry, f: LogEntry)
    requires e != f && e.id == f.id
    ensures MergeLogsUnique([], [e, f]) == [e, f]
    ensures !UniqueIds(MergeLogsUnique([], [e, f]))
  {
    assert Ids([]) == {};
    assert FilterNew([e, f], {}) == [e] + FilterNew([f], {});
  }

  // ---- the "no loss under retry" scenario of overlapping windows ----

  function MkEntry(id: int): LogEntry {
    LogEntry(id, "svc", "stdout", "", "")
  }

  /** Entries with ids lo, lo+1, ..., hi-1, in that order. */
  function Window(lo: int, hi: int): (w: seq<LogEntry>)
    requires lo <= hi
    ensures |w| == hi - lo
    ensures forall k :: 0 <= k < |w| ==> w[k] == MkEntry(lo + k)
    decreases hi - lo
  {
    if lo == hi then [] else [MkEntry(lo)] + Window(lo + 1, hi)
  }

  lemma {:induction false} FilterNewConcat(a: seq<LogEntry>, b: seq<LogEntry>, existing: set<int>)
    ensures FilterNew(a + b, existing) == FilterNew(a, existing) + FilterNew(b, existing)
  {
    if a == [] {
      assert a + b == b;
    } else {
      assert (a + b)[0] == a[0];
      assert (a + b)[1..] == a[1..] + b;
      FilterNewConcat(a[1..], b, existing);
      if a[0].id !in existing {
        assert [a[0]] + (FilterNew(a[1..], existing) + FilterNew(b, existing))
          == ([a[0]] + FilterNew(a[1..], existing)) + FilterNew(b, existing);
      }
    }
  }

  lemma {:induction false} FilterNewOfFresh(incoming: seq<LogEntry>, existing: set<int>)
    requires forall e :: e in incoming ==> e.id !in existing
    ensures FilterNew(incoming, existing) == incoming
  {
    if incoming != [] {
      FilterNewOfFresh(incoming[1..], existing);
    }
  }

  lemma {:induction false} WindowSplit(lo: int, mid: int, hi: int)
    requires lo <= mid <= hi
    ensures Window(lo, hi) == Window(lo, mid) + Window(mid, hi)
  {
    var w := Window(lo, mid) + Window(mid, hi);
    assert |w| == hi - lo;
    forall k | 0 <= k < hi - lo ensures w[k] == Window(lo, hi)[k] {
      if k >= mid - lo {
        assert w[k] == Window(mid, hi)[k - (mid - lo)];
      }
    }
  }

  /** A window holds exactly the ids of its range. */
  lemma IdsOfWindow(lo: int, hi: int)
    requires lo <= hi
    ensures forall e :: e in Window(lo, hi) ==> lo <= e.id < hi
    ensures forall id :: id in Ids(Window(lo, hi)) <==> lo <= id < hi
  {
    var w := Window(lo, hi);
    forall id | lo <= id < hi ensures id in Ids(w) {
      assert w[id - lo] in w;
    }
  }

  /** Merging an overlapping later window yields the contiguous union, each id once. */
  lemma MergeOverlappingWindows(a: int, b: int, c: int, d: int)
    requires a <= c <= b <= d
    ensures MergeLogsUnique(Window(a, b), Window(c, d)) == Window(a, d)
  {
    var ids := Ids(Window(a, b));
    IdsOfWindow(a, b);
    IdsOfWindow(c, b);
    IdsOfWindow(b, d);
    WindowSplit(c, b, d);
    FilterNewConcat(Window(c, b), Window(b, d), ids);
    FilterNewOfKnown(Window(c, b), ids);
    FilterNewOfFresh(Window(b, d), ids);
    WindowSplit(a, b, d);
    calc {
      MergeLogsUnique(Window(a, b), Window(c, d));
      Window(a, b) + FilterNew(Window(c, d), ids);
      Window(a, b) + (FilterNew(Window(c, b), ids) + FilterNew(Window(b, d), ids));
      Window(a, b) + ([] + Window(b, d));
      { assert [] + Window(b, d) == Window(b, d); }
      Window(a, d);
    }
  }

  /** The initial load of ids 1..100 followed by a poll returning 95..104 gives 1..104. */
  lemma InitialLoadThenPoll()
    ensures |MergeLogsUnique(Window(1, 101), Window(95, 105))| == 104
  {
    MergeOverlappingWindows(1, 101, 95, 105);
  }

  // ---- the scroll anchor ----

  /** The scroll container's geometry: scrollTop, clientHeight, scrollHeight. */
  datatype Viewport = Viewport(scrollTop: int, clientHeight: int, scrollHeight: int)

  /** How close (in pixels) the visible bottom must be to the content's bottom. */
  const AnchorTolerance: int := 5

  /**
   * `isScrolledToBottom`: false while the container is not mounted, otherwise
   * whether the visible bottom edge is within the tolerance of the content's end.
   */
  function IsScrolledToBottom(container: Option<Viewport>): (anchored: bool)
    ensures anchored <==> (container.Some? &&
      container.value.scrollTop + container.value.clientHeight + AnchorTolerance >= container.value.scrollHeight)
  {
    match container
    case None => false
    case Some(v) => v.scrollTop + v.clientHeight >= v.scrollHeight - AnchorTolerance
  }

  /** A view already at the very bottom follows the tail; one 6 px above does not. */
  lemma AnchorBoundary(top: int, height: int)
    ensures IsScrolledToBottom(Some(Viewport(top, height, top + height + 5)))
    ensures !IsScrolledToBottom(Some(Viewport(top, height, top + height + 6)))
  {
  }

  // ---- the poll loop ----

  /** Delay before the first poll, leaving time for the initial bulk load. */
  const FirstPollDelay: int := 2000
  /** Delay between the end of one poll and the start of the next. */
  const PollDelay: int := 1000
  /** Number of most recent entries each poll asks for. */
  const PollPageSize: int := 10
  /** Delay of the timer that scrolls back to the bottom after a render. */
  const RepinDelay: int := 10

  /**
   * The state of one mounted LogsView: the buffer, the view's geometry, and the
   * closure variables of the effect that drives `fetchLoop` (`isActive`,
   * `timeoutId`, the AbortController). `pollTimer` is the delay of the pending
   * poll timer, `inFlight` says a fetch is outstanding, `repinPending` says a
   * scroll-to-bottom timer is pending.
   */
  class LogsView {
    var logs: seq<LogEntry>
    var container: Option<Viewport>
    var isActive: bool
    var aborted: bool
    var pollTimer: Option<int>
    var inFlight: bool
    var repinPending: bool
    ghost var polls: nat

    /**
     * The loop is serialised: while active there is always exactly one of a
     * pending timer and an outstanding fetch; after cleanup there is no timer
     * and any outstanding fetch has been aborted. The first timer waits 2000 ms,
     * every later one 1000 ms.
     */
    ghost predicate Valid()
      reads this
    {
      && (isActive ==> (pollTimer.Some? != inFlight) && !aborted)
      && (!isActive ==> pollTimer.None? && aborted)
      && (pollTimer.Some? ==> pollTimer.value == if polls == 0 then FirstPollDelay else PollDelay)
    }

    /**
     * Mounting the view: the buffer is the initial load, the mount effect
     * scrolls the rendered container to its bottom, and the first poll is
     * 2000 ms away.
     */
    constructor (initLogs: seq<LogEntry>, container: Option<Viewport>)
      ensures Valid()
      ensures logs == initLogs
      ensures this.container == if container.Some? then Some(container.value.(scrollTop := container.value.scrollHeight)) else None
      ensures isActive && pollTimer == Some(FirstPollDelay) && !inFlight && !repinPending
    {
      logs := initLogs;
      this.container := if container.Some? then Some(container.value.(scrollTop := container.value.scrollHeight)) else None;
      isActive := true;
      aborted := false;
      pollTimer := Some(FirstPollDelay);
      inFlight := false;
      repinPending := false;
      polls := 0;
    }

    /** The poll timer fires: `fetchLoop` starts a fetch of the 10 latest entries. */
    method PollTimerFires() returns (pageSize: int)
      requires Valid() && pollTimer.Some?
      modifies this
      ensures Valid()
      ensures pageSize == PollPageSize
      ensures inFlight && pollTimer.None? && isActive
      ensures logs == old(logs) && container == old(container) && repinPending == old(repinPending)
    {
      pollTimer := None;
      inFlight := true;
      pageSize := PollPageSize;
    }

    /** The outstanding fetch resolves with a batch. */
    method FetchSucceeded(batch: seq<LogEntry>) returns (anchored: bool)
      requires Valid() && inFlight
      modifies this
      ensures Valid() && !inFlight
      ensures !old(isActive) ==> logs == old(logs) && repinPending == old(repinPending) && pollTimer.None?
      ensures old(isActive) ==> anchored == IsScrolledToBottom(old(container))
      ensures old(isActive) ==> logs == MergeLogsUnique(old(logs), batch)
      ensures old(isActive) ==> repinPending == (old(repinPending) || anchored)
      ensures old(isActive) ==> pollTimer == Some(PollDelay)
      ensures container == old(container) && isActive == old(isActive)
    {
      inFlight := false;
      anchored := false;
      if !isActive {
        return;
      }
      anchored := IsScrolledToBottom(container);
      logs := MergeLogsUnique(logs, batch);
      if anchored {
        repinPending := true;
      }
      polls := polls + 1;
      pollTimer := Some(PollDelay);
    }

    /** The outstanding fetch rejects (network error, bad payload, or abort). */
    method FetchFailed()
      requires Valid() && inFlight
      modifies this
      ensures Valid() && !inFlight
      ensures logs == old(logs) && container == old(container) && repinPending == old(repinPending)
      ensures isActive == old(isActive)
      ensures pollTimer == if old(isActive) then Some(PollDelay) else None
    {
      inFlight := false;
      if !isActive {
        return;
      }
      polls := polls + 1;
      pollTimer := Some(PollDelay);
    }

    /** React re-renders the merged buffer; the content grows to `scrollHeight`. */
    method Render(scrollHeight: int)
      requires Valid()
      modifies this
      ensures Valid()
      ensures container == if old(container).Some?
        then Some(old(container).value.(scrollHeight := scrollHeight)) else None
      ensures logs == old(logs) && isActive == old(isActive) && pollTimer == old(pollTimer)
      ensures inFlight == old(inFlight) && repinPending == old(repinPending)
    {
      if container.Some? {
        container := Some(container.value.(scrollHeight := scrollHeight));
      }
    }

    /** The 10 ms timer scheduled by an anchored update scrolls to the new bottom. */
    method RepinTimerFires()
      requires Valid() && repinPending
      modifies this
      ensures Valid() && !repinPending
      ensures container == if old(container).Some?
        then Some(old(container).value.(scrollTop := old(container).value.scrollHeight)) else None
      ensures logs == old(logs) && isActive == old(isActive) && pollTimer == old(pollTimer)
      ensures inFlight == old(inFlight)
    {
      repinPending := false;
      if container.Some? {
        container := Some(container.value.(scrollTop := container.value.scrollHeight));
      }
    }

    /** The reader scrolls the container to offset `top` (a browser event, not the component's code). */
    method UserScrolls(top: int)
      requires Valid()
      modifies this
      ensures Valid()
      ensures container == if old(container).Some? then Some(old(container).value.(scrollTop := top)) else None
      ensures logs == old(logs) && isActive == old(isActive) && pollTimer == old(pollTimer)
      ensures inFlight == old(inFlight) && repinPending == old(repinPending)
    {
      if container.Some? {
        container := Some(container.value.(scrollTop := top));
      }
    }

    /** The effect's cleanup: stop the loop, abort the fetch, clear the timer. */
    method Cleanup()
      requires Valid()
      modifies this
      ensures Valid()
      ensures !isActive && aborted && pollTimer.None?
      ensures logs == old(logs) && container == old(container)
      ensures inFlight == old(inFlight) && repinPending == old(repinPending)
    {
      isActive := false;
      aborted := true;
      pollTimer := None;
    }
  }

  /**
   * After mounting, the reader scrolls to `v`'s offset. A poll that adds
   * entries while the reader is on older lines leaves the scroll offset where it was; a poll while at the bottom ends at the new bottom.
   */
  method AnchorScenario(initLogs: seq<LogEntry>, batch: seq<LogEntry>, v: Viewport, newHeight: int)
    returns (view: LogsView)
    ensures view.container.Some?
    ensures IsScrolledToBottom(Some(v)) ==> view.container.value.scrollTop == newHeight
    ensures !IsScrolledToBottom(Some(v)) ==> view.container.value.scrollTop == v.scrollTop
    ensures view.logs == MergeLogsUnique(initLogs, batch)
  {
    view := new LogsView(initLogs, Some(v));
    view.UserScrolls(v.scrollTop);
    var _ := view.PollTimerFires();
    var anchored := view.FetchSucceeded(batch);
    view.Render(newHeight);
    if view.repinPending {
      view.RepinTimerFires();
    }
  }

  /** Cleanup during a fetch: its result is discarded and no further poll is scheduled. */
  method CancelScenario(initLogs: seq<LogEntry>, batch: seq<LogEntry>) returns (view: LogsView)
    ensures view.logs == initLogs && view.pollTimer.None? && !view.isActive && !view.inFlight
  {
    view := new LogsView(initLogs, None);
    var _ := view.PollTimerFires();
    view.Cleanup();
    var _ := view.FetchSucceeded(batch);
  }
}
