/**
 * The background worker's indexing bookkeeping (worker.js): the pending-work
 * queue `index_queue` (tab id to 1 new, 0 updated, -1 removed), the highlight
 * table `tab_highlight` (tab id to the last `find` request for that tab), the
 * tab listeners that write them, and the message handler that reads them.
 *
 * Each listener and each message is one atomic step. Browser calls the
 * handler makes (focusing a tab, injecting the highlighter, closing or moving
 * tabs) are returned as a list of `HostCall`s instead of being performed.
 */
module Worker {
  import opened Outcomes
  import opened Text

  /** A tab id handed out by the browser. */
  type TabId = int

  /** The three values a tab can have in the queue. */
  const QueuedNew: int := 1
  const QueuedUpdate: int := 0
  const QueuedRemoval: int := -1

  predicate IsDelta(v: int)
  {
    v == QueuedRemoval || v == QueuedUpdate || v == QueuedNew
  }

  /** Every value in the queue is one of -1, 0 and 1. */
  predicate AllDeltas(q: map<TabId, int>)
  {
    forall t :: t in q ==> IsDelta(q[t])
  }

  /** The tab events the worker listens to once it has started up. */
  datatype TabEvent =
    | Created(tabId: TabId)
    | Updated(tabId: TabId, discarded: bool)  // `discarded` is `info.discarded === true`
    | Activated(tabId: TabId)
    | Removed(tabId: TabId)

  /** Every listener writes the queue, except an update that reports a discarded tab. */
  predicate Writes(e: TabEvent)
  {
    !(e.Updated? && e.discarded)
  }

  /** The value a listener stores for its tab. */
  function QueuedValue(e: TabEvent): int
  {
    match e
    case Created(_) => QueuedNew
    case Removed(_) => QueuedRemoval
    case _ => QueuedUpdate
  }

  /**
   * The queue after one tab event: last write wins for the event's tab and
   * every other entry is left alone.
   */
  function Step(q: map<TabId, int>, e: TabEvent): (r: map<TabId, int>)
    ensures forall t :: t != e.tabId ==> (t in r <==> t in q) && (t in q ==> r[t] == q[t])
    ensures !Writes(e) ==> r == q
    ensures e.Created? ==> e.tabId in r && r[e.tabId] == QueuedNew
    ensures (e.Updated? && !e.discarded) || e.Activated? ==> e.tabId in r && r[e.tabId] == QueuedUpdate
    ensures e.Removed? ==> e.tabId in r && r[e.tabId] == QueuedRemoval
    ensures AllDeltas(q) ==> AllDeltas(r)
  {
    if Writes(e) then q[e.tabId := QueuedValue(e)] else q
  }

  /** The queue after a sequence of tab events, oldest first. */
  function Replay(q: map<TabId, int>, events: seq<TabEvent>): map<TabId, int>
    decreases |events|
  {
    if events == [] then q else Replay(Step(q, events[0]), events[1..])
  }

  /** Whatever the events, the queue only ever holds -1, 0 and 1. */
  lemma {:induction false} ReplayKeepsDeltas(q: map<TabId, int>, events: seq<TabEvent>)
    requires AllDeltas(q)
    ensures AllDeltas(Replay(q, events))
    decreases |events|
  {
    if events != [] {
      ReplayKeepsDeltas(Step(q, events[0]), events[1..]);
    }
  }

  /** The tabs whose listeners wrote the queue during `events`. */
  function Touched(events: seq<TabEvent>): set<TabId>
  {
    set i | 0 <= i < |events| && Writes(events[i]) :: events[i].tabId
  }

  /**
   * The queue's keys after the events are the keys before them plus the tabs
   * the events wrote; starting from the empty queue left by `get_jobs`, they
   * are exactly the written tabs.
   */
  lemma {:induction false} ReplayKeys(q: map<TabId, int>, events: seq<TabEvent>)
    ensures Replay(q, events).Keys == q.Keys + Touched(events)
    decreases |events|
  {
    if events != [] {
      ReplayKeys(Step(q, events[0]), events[1..]);
      var tail := events[1..];
      assert Touched(events) == (if Writes(events[0]) then {events[0].tabId} else {}) + Touched(tail) by {
        forall t | t in Touched(events)
          ensures t in (if Writes(events[0]) then {events[0].tabId} else {}) + Touched(tail)
        {
          var i :| 0 <= i < |events| && Writes(events[i]) && events[i].tabId == t;
          if i > 0 {
            assert tail[i - 1] == events[i];
          }
        }
        forall t | t in Touched(tail)
          ensures t in Touched(events)
        {
          var i :| 0 <= i < |tail| && Writes(tail[i]) && tail[i].tabId == t;
          assert events[i + 1] == tail[i];
        }
      }
    }
  }

  /** A tab that no event wrote keeps its entry, or its absence. */
  lemma {:induction false} ReplayUntouched(q: map<TabId, int>, events: seq<TabEvent>, t: TabId)
    requires forall j :: 0 <= j < |events| && Writes(events[j]) ==> events[j].tabId != t
    ensures t in Replay(q, events) <==> t in q
    ensures t in q ==> Replay(q, events)[t] == q[t]
    decreases |events|
  {
    if events != [] {
      var tail := events[1..];
      forall j | 0 <= j < |tail| && Writes(tail[j])
        ensures tail[j].tabId != t
      {
        assert tail[j] == events[j + 1];
      }
      ReplayUntouched(Step(q, events[0]), tail, t);
    }
  }

  /**
   * Last write wins: the entry of a tab is the value written by the last event
   * that wrote it, whatever came before. In particular a tab whose last event
   * is a removal is queued as -1.
   */
  lemma {:induction false} ReplayLastWrite(q: map<TabId, int>, events: seq<TabEvent>, k: nat)
    requires k < |events| && Writes(events[k])
    requires forall j :: k < j < |events| && Writes(events[j]) ==> events[j].tabId != events[k].tabId
    ensures events[k].tabId in Replay(q, events)
    ensures Replay(q, events)[events[k].tabId] == QueuedValue(events[k])
    decreases |events|
  {
    var tail := events[1..];
    if k == 0 {
      ReplayUntouched(Step(q, events[0]), tail, events[0].tabId);
    } else {
      forall j | k - 1 < j < |tail| && Writes(tail[j])
        ensures tail[j].tabId != tail[k - 1].tabId
      {
        assert tail[j] == events[j + 1];
      }
      ReplayLastWrite(Step(q, events[0]), tail, k - 1);
    }
  }

  // ---------------------------------------------------------------------------
  // The creation listener as written. Startup registers it on `onCreate`, which
  // the tabs API does not have, so the registration throws after the other three
  // listeners are in place and no creation event ever reaches the queue. `Step`
  // and `Background.OnCreated` are the intended listener.

  /** One tab event as the registered listeners handle it: creations change nothing. */
  function StepAsWritten(q: map<TabId, int>, e: TabEvent): (r: map<TabId, int>)
    ensures e.Created? ==> r == q
    ensures !e.Created? ==> r == Step(q, e)
  {
    if e.Created? then q else Step(q, e)
  }

  /** A sequence of tab events as the registered listeners handle it. */
  function ReplayAsWritten(q: map<TabId, int>, events: seq<TabEvent>): map<TabId, int>
    decreases |events|
  {
    if events == [] then q else ReplayAsWritten(StepAsWritten(q, events[0]), events[1..])
  }

  /**
   * A newly created tab is not queued at all by the code as written, where the
   * intended listener queues it as new.
   */
  lemma CreationIgnoredAsWritten(q: map<TabId, int>, t: TabId)
    requires t !in q
    ensures t !in ReplayAsWritten(q, [Created(t)])
    ensures t in Replay(q, [Created(t)]) && Replay(q, [Created(t)])[t] == QueuedNew
  {
    assert [Created(t)][1..] == [];
  }

  /** A tab created and then updated after startup is queued as updated, not new. */
  lemma CreatedThenUpdatedAsWritten(q: map<TabId, int>, t: TabId)
    ensures ReplayAsWritten(q, [Created(t), Updated(t, false)]) == q[t := QueuedUpdate]
  {
    var events := [Created(t), Updated(t, false)];
    assert events[1..] == [Updated(t, false)];
    assert [Updated(t, false)][1..] == [];
    calc {
      ReplayAsWritten(q, events);
      ReplayAsWritten(StepAsWritten(q, Created(t)), [Updated(t, false)]);
      ReplayAsWritten(q, [Updated(t, false)]);
      ReplayAsWritten(StepAsWritten(q, Updated(t, false)), []);
      q[t := QueuedUpdate];
    }
  }

  /**
   * After startup the code as written never queues a tab as new: a tab queued
   * as 1 after any events was queued as 1 before them and no listener wrote it.
   */
  lemma {:induction false} NoNewTabsAsWritten(q: map<TabId, int>, events: seq<TabEvent>, t: TabId)
    requires t in ReplayAsWritten(q, events) && ReplayAsWritten(q, events)[t] == QueuedNew
    ensures t in q && q[t] == QueuedNew
    ensures forall j :: 0 <= j < |events| && Writes(events[j]) && !events[j].Created? ==> events[j].tabId != t
    decreases |events|
  {
    if events != [] {
      var tail := events[1..];
      NoNewTabsAsWritten(StepAsWritten(q, events[0]), tail, t);
      forall j | 0 <= j < |events| && Writes(events[j]) && !events[j].Created?
        ensures events[j].tabId != t
      {
        if j > 0 {
          assert events[j] == tail[j - 1];
        }
      }
    }
  }

  /** A `find` request as the popup sends it. */
  datatype FindRequest = FindRequest(tabId: TabId, windowId: int, query: string, snippet: string)

  /**
   * `find` records a highlight when the snippet is non-empty (truthy) and
   * either contains the marker `<b>` or the `strict` preference is set.
   */
  predicate ShouldHighlight(snippet: string, strict: bool)
  {
    snippet != "" && (Includes(snippet, "<b>") || strict)
  }

  /** The highlight condition in terms of where the marker occurs. */
  lemma HighlightCondition(snippet: string, strict: bool)
    ensures ShouldHighlight(snippet, strict)
            <==> snippet != "" && (strict || exists i :: OccursAt(snippet, "<b>", i))
  {
    IncludesIff(snippet, "<b>");
  }

  /** The tab that anchors the new window of `group`, and the tabs moved after it. */
  datatype GroupPlan = GroupPlan(anchor: Option<TabId>, moved: seq<TabId>)

  /**
   * `group` shifts the first id off the list as the anchor; the rest follow it
   * in their original order. No id is lost or added.
   */
  function PlanGroup(ids: seq<TabId>): (p: GroupPlan)
    ensures p.anchor.None? <==> ids == []
    ensures (if p.anchor.Some? then [p.anchor.value] else []) + p.moved == ids
  {
    if ids == [] then GroupPlan(None, []) else GroupPlan(Some(ids[0]), ids[1..])
  }

  /** The browser calls the worker makes and does not wait for. */
  datatype HostCall =
    | ActivateTab(tabId: TabId)
    | FocusWindow(windowId: int)
    | InjectHighlighter(tabId: TabId)
    | CloseTabs(ids: seq<TabId>)
    | CreateWindow(anchor: Option<TabId>)
    | MoveToNewWindow(ids: seq<TabId>)
    | FocusNewWindow

  /** The calls `group` makes: a new window around the anchor, then the others moved and focused. */
  function GroupCalls(p: GroupPlan): (calls: seq<HostCall>)
    ensures |calls| >= 1 && calls[0] == CreateWindow(p.anchor)
    ensures |calls| == 1 <==> p.moved == []
    ensures p.moved != [] ==> calls[1..] == [MoveToNewWindow(p.moved), FocusNewWindow]
  {
    [CreateWindow(p.anchor)] + if p.moved != [] then [MoveToNewWindow(p.moved), FocusNewWindow] else []
  }

  /** The runtime messages the worker answers; any other method is ignored. */
  datatype Message =
    | Find(request: FindRequest)
    | GetHighlight
    | Delete(ids: seq<TabId>)
    | Group(ids: seq<TabId>)
    | GetJobs
    | Unrecognized(name: string)

  /** What the handler passes to `response`, if it calls it. */
  datatype Reply =
    | NoReply
    | EmptyReply
    | HighlightReply(entry: Option<FindRequest>)
    | JobsReply(jobs: map<TabId, int>)

  /** The worker's module-level state. */
  class Background {
    var indexQueue: map<TabId, int>
    var tabHighlight: map<TabId, FindRequest>
    /** Whether the startup routine has registered the tab listeners. */
    var listening: bool

    ghost predicate Valid()
      reads this
    {
      AllDeltas(indexQueue)
    }

    /** Both tables start empty; the tab listeners are not registered yet. */
    constructor ()
      ensures Valid()
      ensures indexQueue == map[] && tabHighlight == map[] && !listening
    {
      indexQueue := map[];
      tabHighlight := map[];
      listening := false;
    }

    /**
     * The startup routine: the queue is reset so that every open tab is
     * queued as new, then the tab listeners are registered (the creation
     * listener as intended, see `StepAsWritten`).
     */
    method Startup(openTabs: seq<TabId>)
      modifies this`indexQueue, this`listening
      ensures Valid() && listening
      ensures indexQueue.Keys == set t | t in openTabs
      ensures forall t :: t in indexQueue ==> indexQueue[t] == QueuedNew
    {
      indexQueue := map[];
      for i := 0 to |openTabs|
        invariant indexQueue.Keys == set j | 0 <= j < i :: openTabs[j]
        invariant forall t :: t in indexQueue ==> indexQueue[t] == QueuedNew
      {
        indexQueue := indexQueue[openTabs[i] := QueuedNew];
      }
      listening := true;
    }

    /** The removal listener: forget the tab's highlight and queue it as removed. */
    method OnRemoved(tabId: TabId)
      requires Valid()
      modifies this`indexQueue, this`tabHighlight
      ensures Valid()
      ensures tabHighlight == if listening then old(tabHighlight) - {tabId} else old(tabHighlight)
      ensures indexQueue == if listening then Step(old(indexQueue), Removed(tabId)) else old(indexQueue)
    {
      if listening {
        tabHighlight := tabHighlight - {tabId};
        indexQueue := indexQueue[tabId := QueuedRemoval];
      }
    }

    /** The update listener: queue the tab as updated unless the update discarded it. */
    method OnUpdated(tabId: TabId, discarded: bool)
      requires Valid()
      modifies this`indexQueue
      ensures Valid()
      ensures indexQueue == if listening then Step(old(indexQueue), Updated(tabId, discarded)) else old(indexQueue)
    {
      if listening {
        if discarded {
          return;
        }
        indexQueue := indexQueue[tabId := QueuedUpdate];
      }
    }

    /** The activation listener: queue the tab as updated. */
    method OnActivated(tabId: TabId)
      requires Valid()
      modifies this`indexQueue
      ensures Valid()
      ensures indexQueue == if listening then Step(old(indexQueue), Activated(tabId)) else old(indexQueue)
    {
      if listening {
        indexQueue := indexQueue[tabId := QueuedUpdate];
      }
    }

    /**
     * The creation listener as intended: queue the tab as new. As written the
     * startup routine never registers it (see `StepAsWritten`).
     */
    method OnCreated(tabId: TabId)
      requires Valid()
      modifies this`indexQueue
      ensures Valid()
      ensures indexQueue == if listening then Step(old(indexQueue), Created(tabId)) else old(indexQueue)
    {
      if listening {
        indexQueue := indexQueue[tabId := QueuedNew];
      }
    }

    /**
     * The runtime message handler. `senderTab` is the id of the tab that sent
     * the message and `strict` the stored preference of that name.
     */
    method HandleMessage(message: Message, senderTab: TabId, strict: bool) returns (reply: Reply, calls: seq<HostCall>)
      requires Valid()
      modifies this`indexQueue, this`tabHighlight
      ensures Valid()
      ensures !message.GetJobs? ==> indexQueue == old(indexQueue)
      ensures !message.Find? ==> tabHighlight == old(tabHighlight)
      ensures message.Find? ==>
                var req := message.request;
                var marked := ShouldHighlight(req.snippet, strict);
                && tabHighlight == (if marked then old(tabHighlight)[req.tabId := req] else old(tabHighlight))
                && reply == EmptyReply
                && calls == [ActivateTab(req.tabId), FocusWindow(req.windowId)]
                            + if marked then [InjectHighlighter(req.tabId)] else []
      ensures message.GetHighlight? ==>
                && reply == HighlightReply(if senderTab in tabHighlight then Some(tabHighlight[senderTab]) else None)
                && calls == []
      ensures message.Delete? ==> reply == NoReply && calls == [CloseTabs(message.ids)]
      ensures message.Group? ==> reply == NoReply && calls == GroupCalls(PlanGroup(message.ids))
      ensures message.GetJobs? ==> reply == JobsReply(old(indexQueue)) && indexQueue == map[] && calls == []
      ensures message.Unrecognized? ==> reply == NoReply && calls == []
    {
      reply, calls := NoReply, [];
      match message
      case Find(req) =>
        calls := [ActivateTab(req.tabId), FocusWindow(req.windowId)];
        if ShouldHighlight(req.snippet, strict) {
          tabHighlight := tabHighlight[req.tabId := req];
          calls := calls + [InjectHighlighter(req.tabId)];
        }
        reply := EmptyReply;
      case GetHighlight =>
        reply := HighlightReply(if senderTab in tabHighlight then Some(tabHighlight[senderTab]) else None);
      case Delete(ids) =>
        calls := [CloseTabs(ids)];
      case Group(ids) =>
        var rest := ids;
        var anchor: Option<TabId> := None;
        if |rest| > 0 {
          anchor, rest := Some(rest[0]), rest[1..];
        }
        calls := [CreateWindow(anchor)];
        if |rest| > 0 {
          calls := calls + [MoveToNewWindow(rest), FocusNewWindow];
        }
      case GetJobs =>
        reply := JobsReply(indexQueue);
        indexQueue := map[];
      case Unrecognized(_) =>
    }
  }
}
