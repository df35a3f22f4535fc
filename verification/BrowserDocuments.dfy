/** Whether a ref still belongs to the document that its page shows. A ref is looked up in one map for all
    pages, and that map is dropped only by a stop or a tracked navigation; what Chromium shows changes at
    other moments as well. */
module BrowserDocuments {
  import opened Basics
  import opened AccessibilityTree
  import opened BrowserManager

  /** A call of the manager; or Chromium replaces the document of a page on its own, for a click or a script;
      or a page goes away on its own. */
  datatype Event = Call(op: Op) | OwnLoad(page: string) | OwnClose(page: string)

  function Calls(events: seq<Event>): seq<Op> {
    if events == [] then []
    else
      var front, last := Calls(events[..|events| - 1]), events[|events| - 1];
      if last.Call? then front + [last.op] else front
  }

  /** The manager after these events. */
  function StateOf(events: seq<Event>): BrowserState {
    Run(Calls(events))
  }

  // ---- documents ----

  /** The page into which Chromium begins to load another document. */
  function Loaded(s: BrowserState, event: Event): Option<string> {
    match event
    case Call(op) =>
      if op.Navigate? && Navigated(s, op) then Some(if op.pageId == "" then op.created else op.pageId) else None
    case OwnLoad(page) => Some(page)
    case OwnClose(_) => None
  }

  /** The event ends the page. Stopping the browser ends every page. */
  predicate Ends(s: BrowserState, event: Event, page: string) {
    match event
    case Call(op) => (op.Stop? && s.running) || (op.ClosePage? && Closes(s, op) && op.pageId == page)
    case OwnLoad(_) => false
    case OwnClose(p) => p == page
  }

  /** The open pages, with the document that each shows. Documents are numbered by the event that loaded
      them, so a number is never used again. */
  function Shown(events: seq<Event>): map<string, nat> {
    if events == [] then map[]
    else
      var front, last := events[..|events| - 1], events[|events| - 1];
      ShownAfter(Shown(front), StateOf(front), last, |events|)
  }

  function ShownAfter(shown: map<string, nat>, s: BrowserState, event: Event, number: nat): map<string, nat> {
    var kept := map p | p in shown && !Ends(s, event, p) :: shown[p];
    var loaded := Loaded(s, event);
    if loaded.Some? then kept[loaded.value := number] else kept
  }

  /** A document of a page. */
  datatype Doc = Doc(page: string, number: nat)

  predicate Takes(s: BrowserState, event: Event) {
    event.Call? && event.op.Snapshot? && BuildsTree(s, event.op)
  }

  /** The document of the latest snapshot that built a tree. */
  function Snapped(events: seq<Event>): Option<Doc> {
    if events == [] then None
    else
      var front, last := events[..|events| - 1], events[|events| - 1];
      if Takes(StateOf(front), last) then
        var page := GetPage(StateOf(front), last.op.pageId).value;
        Some(Doc(page, if page in Shown(front) then Shown(front)[page] else 0))
      else Snapped(front)
  }

  /** Chromium answers for open pages only. */
  predicate PossibleEvent(events: seq<Event>, event: Event) {
    var s := StateOf(events);
    match event
    case Call(op) =>
      && Possible(s, op)
      && (Takes(s, event) ==> GetPage(s, op.pageId).value in Shown(events))
    case OwnLoad(page) => page in Shown(events)
    case OwnClose(_) => true
  }

  predicate PossibleEvents(events: seq<Event>) {
    events == []
    || (PossibleEvents(events[..|events| - 1]) && PossibleEvent(events[..|events| - 1], events[|events| - 1]))
  }

  // ---- since the latest snapshot ----

  predicate NavigatedSince(events: seq<Event>, page: string) {
    events != []
    && var front, last := events[..|events| - 1], events[|events| - 1];
       !Takes(StateOf(front), last) && (Loaded(StateOf(front), last) == Some(page) || NavigatedSince(front, page))
  }

  predicate EndedSince(events: seq<Event>, page: string) {
    events != []
    && var front, last := events[..|events| - 1], events[|events| - 1];
       !Takes(StateOf(front), last) && (Ends(StateOf(front), last, page) || EndedSince(front, page))
  }

  /** No two pages show the same document, and none is numbered beyond the present. */
  lemma {:induction false} DocumentsDiffer(events: seq<Event>)
    ensures forall p :: p in Shown(events) ==> Shown(events)[p] <= |events|
    ensures forall p, q :: p in Shown(events) && q in Shown(events) && p != q ==> Shown(events)[p] != Shown(events)[q]
    ensures Snapped(events).Some? ==> Snapped(events).value.number <= |events|
  {
    if events != [] {
      DocumentsDiffer(events[..|events| - 1]);
    }
  }

  /** `page` shows the document of the latest snapshot. */
  predicate ShowsSnapped(events: seq<Event>, page: string) {
    Snapped(events).Some? && page in Shown(events) && Shown(events)[page] == Snapped(events).value.number
  }

  /** Exactly when a page shows the document of the latest snapshot: when that was the page of the snapshot,
      it is still open, and nothing has been loaded into it since. */
  lemma {:induction false} ShowsSnappedIff(events: seq<Event>, page: string)
    requires PossibleEvents(events) && Snapped(events).Some?
    ensures ShowsSnapped(events, page) <==>
      page == Snapped(events).value.page && !NavigatedSince(events, page) && !EndedSince(events, page)
  {
    var front, last := events[..|events| - 1], events[|events| - 1];
    DocumentsDiffer(front);
    if !Takes(StateOf(front), last) {
      ShowsSnappedIff(front, page);
    }
  }

  // ---- the use of a ref ----

  datatype Target = Target(page: string, backendId: int)

  /** The lookups of an action that names a ref: the page, then the ref. */
  function ResolveOn(s: BrowserState, pageId: string, ref: string): Outcome<Target> {
    if !s.running then Err(NotStarted)
    else
      match GetPage(s, pageId)
      case Err(code) => Err(code)
      case Ok(page) =>
        match ResolveRef(s, ref)
        case Err(code) => Err(code)
        case Ok(id) => Ok(Target(page, id))
  }

  lemma {:induction false} SnappedAgrees(events: seq<Event>)
    ensures Snapped(events).Some? <==> LatestNodes(Calls(events)).Some?
  {
    if events != [] {
      var front, last := events[..|events| - 1], events[|events| - 1];
      SnappedAgrees(front);
      if last.Call? {
        TakeDrop(Calls(front), [last.op]);
      }
    }
  }

  /** A ref that resolves on a page belongs to the document that the page shows if and only if the page is that
      of the snapshot, is still open, and has had nothing loaded into it since. */
  lemma RefIsCurrentIff(events: seq<Event>, pageId: string, ref: string)
    requires PossibleEvents(events) && ResolveOn(StateOf(events), pageId, ref).Ok?
    ensures var t := ResolveOn(StateOf(events), pageId, ref).value;
      && Snapped(events).Some? && LatestNodes(Calls(events)).Some?
      && ref in Refs(LatestNodes(Calls(events)).value)
      && (ShowsSnapped(events, t.page) <==>
            t.page == Snapped(events).value.page && !NavigatedSince(events, t.page) && !EndedSince(events, t.page))
  {
    RefMapIs(Calls(events));
    SnappedAgrees(events);
    ShowsSnappedIff(events, ResolveOn(StateOf(events), pageId, ref).value.page);
  }

  // ---- the ways to fail ----

  /** The ref resolves on the page, which does not show the document of the snapshot. */
  predicate Misdirected(events: seq<Event>, pageId: string, ref: string) {
    PossibleEvents(events) && ResolveOn(StateOf(events), pageId, ref).Ok? && !ShowsSnapped(events, pageId)
  }

  lemma Extend(events: seq<Event>, event: Event) returns (longer: seq<Event>)
    requires PossibleEvents(events) && PossibleEvent(events, event)
    ensures longer == events + [event] && longer[..|longer| - 1] == events && PossibleEvents(longer)
    ensures StateOf(longer) == if event.Call? then Do(StateOf(events), event.op) else StateOf(events)
    ensures Shown(longer) == ShownAfter(Shown(events), StateOf(events), event, |events| + 1)
  {
    longer := events + [event];
    TakeDrop(events, [event]);
    if event.Call? {
      TakeDrop(Calls(events), [event.op]);
    }
  }

  const NODE: AXNode := AXNode("1", "", false, 7, None, None, None, None)

  lemma OnePage() returns (events: seq<Event>)
    ensures PossibleEvents(events) && |events| == 2
    ensures StateOf(events) == STOPPED.(running := true, pages := map["x" := Page("x")], lastPageId := "x")
    ensures Shown(events) == map["x" := 2]
  {
    events := Extend([], Call(Start(true, true)));
    assert Shown(events) == map[];
    events := Extend(events, Call(Navigate("", true, "x", true, None)));
  }

  /** Pages "x" and "y" are open. */
  lemma TwoPages() returns (events: seq<Event>)
    ensures PossibleEvents(events) && |events| == 3
    ensures var s := StateOf(events);
      s.running && s.pages == map["x" := Page("x"), "y" := Page("y")] && s.lastPageId == "y"
    ensures Shown(events) == map["x" := 2, "y" := 3]
  {
    var one := OnePage();
    var op := Navigate("", true, "y", true, None);
    events := Extend(one, Call(op));
    OpenKeeps(Shown(one), StateOf(one), op, 3);
  }

  /** Opening another page leaves the others. */
  lemma OpenKeeps(shown: map<string, nat>, s: BrowserState, op: Op, number: nat)
    requires op.Navigate? && op.pageId == "" && op.navigates && s.running
    ensures ShownAfter(shown, s, Call(op), number) == shown[op.created := number]
  {
    assert forall p :: !Ends(s, Call(op), p);
  }

  /** And "x" has just been shown by a snapshot, with one ref. */
  ghost predicate XSnapped(events: seq<Event>, ref: string) {
    && PossibleEvents(events) && |events| == 4
    && StateOf(events).running && StateOf(events).pages == map["x" := Page("x"), "y" := Page("y")]
    && ref in StateOf(events).refMap && StateOf(events).lastPageId == "y"
    && Shown(events) == map["x" := 2, "y" := 3] && Snapped(events) == Some(Doc("x", 2))
    && forall page :: !NavigatedSince(events, page) && !EndedSince(events, page)
  }

  lemma SnapshotOfX() returns (events: seq<Event>, ref: string)
    ensures XSnapped(events, ref)
  {
    events := TwoPages();
    ref := Ref(7);
    var s, op := StateOf(events), Snapshot("x", false, true, None, Some([NODE]));
    assert BuildsTree(s, op) && GetPage(s, op.pageId) == Ok("x");
    assert [NODE][..0] == [] && ref in Refs([NODE]);
    assert Takes(s, Call(op));
    events := Extend(events, Call(op));
  }

  /** The map is not kept by page: the ref resolves on a page that the snapshot did not show. */
  lemma RefOnAnotherPage() returns (events: seq<Event>, ref: string)
    ensures Misdirected(events, "y", ref) && Snapped(events) == Some(Doc("x", 2))
    ensures !NavigatedSince(events, "y") && !EndedSince(events, "y")
  {
    events, ref := SnapshotOfX();
  }

  /** A navigation that fails in WaitLoad keeps the refs of the document that it has replaced. */
  lemma RefAfterFailedLoad() returns (events: seq<Event>, ref: string)
    ensures Misdirected(events, "x", ref) && Snapped(events) == Some(Doc("x", 2))
  {
    events, ref := SnapshotOfX();
    events := Extend(events, Call(Navigate("x", true, "z", false, None)));
    assert Shown(events)["x"] == 5;
  }

  /** Closing the page of the snapshot keeps its refs. */
  lemma RefAfterClose() returns (events: seq<Event>, ref: string)
    ensures Misdirected(events, "y", ref) && Snapped(events) == Some(Doc("x", 2))
    ensures "x" !in StateOf(events).pages && "x" !in Shown(events)
  {
    events, ref := SnapshotOfX();
    assert StateOf(events).pages - {"x"} == map["y" := Page("y")];
    events := Extend(events, Call(ClosePage("x", true, "y")));
  }

  /** So does a click or a script that loads another document. */
  lemma RefAfterOwnLoad() returns (events: seq<Event>, ref: string)
    ensures Misdirected(events, "x", ref) && Snapped(events) == Some(Doc("x", 2))
  {
    events, ref := SnapshotOfX();
    events := Extend(events, OwnLoad("x"));
    assert Shown(events)["x"] == 5;
  }
}
