/** BrowserManager of worker/browser.go: open pages, the last active page and the ref map, which must
    agree after every operation, whether it succeeds or fails. What Chromium answers is a parameter. */
module BrowserManager {
  import opened Basics
  import opened AccessibilityTree

  /** A *rod.Page, which knows its CDP target id. */
  datatype Page = Page(targetId: string)

  /** `running` stands for a browser and a launcher that are not nil. */
  datatype BrowserState = BrowserState(running: bool, pages: map<string, Page>, refMap: map<string, int>,
                                       snapshotId: nat, lastPageId: string)

  const STOPPED: BrowserState := BrowserState(false, map[], map[], 0, "")

  /** The counter is a uint64. */
  const UINT64: nat := 0x1_0000_0000_0000_0000

  function NextId(n: nat): nat {
    if n + 1 < UINT64 then n + 1 else 0
  }

  datatype Code = NotStarted | NotFound | Failed

  datatype Outcome<+T> = Ok(value: T) | Err(code: Code)

  /** What Chromium tells about a page. */
  datatype PageInfo = PageInfo(url: string, title: string)

  datatype PageResult = PageResult(pageId: string, url: string, title: string)

  datatype SnapshotResult = SnapshotResult(domHtml: Option<string>, snapshotId: Option<nat>)

  // ---- lookups ----

  function GetPage(s: BrowserState, pageId: string): Outcome<string> {
    var id := if pageId != "" then pageId else s.lastPageId;
    if id == "" || id !in s.pages then Err(NotFound) else Ok(id)
  }

  function ResolveRef(s: BrowserState, ref: string): Outcome<int> {
    if ref in s.refMap then Ok(s.refMap[ref]) else Err(NotFound)
  }

  // ---- operations ----

  /** An operation with Chromium's answers. An empty page id means that none was given. In `Navigate`,
      `created` is the target id of the page that Chromium creates when no page id is given. In `ClosePage`,
      `next` is the key that Go's map iteration yields first. */
  datatype Op =
    | Start(launches: bool, connects: bool)
    | Stop(closes: bool)
    | Navigate(pageId: string, navigates: bool, created: string, loads: bool, info: Option<PageInfo>)
    | ClosePage(pageId: string, closes: bool, next: string)
    | Snapshot(pageId: string, wantDom: bool, wantA11y: bool, html: Option<string>, axNodes: Option<seq<AXNode>>)

  /** With no type requested, both are. */
  predicate WantsTree(op: Op)
    requires op.Snapshot?
  {
    op.wantA11y || !op.wantDom
  }

  predicate WantsHtml(op: Op)
    requires op.Snapshot?
  {
    op.wantDom || !op.wantA11y
  }

  /** The snapshot gets as far as converting the accessibility nodes. */
  predicate BuildsTree(s: BrowserState, op: Op)
    requires op.Snapshot?
  {
    && s.running && GetPage(s, op.pageId).Ok? && (WantsHtml(op) ==> op.html.Some?)
    && WantsTree(op) && op.axNodes.Some?
  }

  /** The navigation gets as far as tracking the page, and under which id. */
  function Tracked(s: BrowserState, op: Op): Option<string>
    requires op.Navigate?
  {
    if !s.running || !op.navigates || !op.loads then None
    else if op.pageId == "" then Some(op.created)
    else if op.pageId in s.pages then Some(s.pages[op.pageId].targetId)
    else None
  }

  predicate Closes(s: BrowserState, op: Op)
    requires op.ClosePage?
  {
    s.running && op.pageId in s.pages && op.closes
  }

  function Do(s: BrowserState, op: Op): BrowserState {
    match op
    case Start(launches, connects) => if !s.running && launches && connects then s.(running := true) else s
    case Stop(_) =>
      if s.running then s.(running := false, pages := map[], refMap := map[], lastPageId := "") else s
    case Navigate(_, _, _, _, _) =>
      var id := Tracked(s, op);
      if id.None? then s
      else s.(pages := s.pages[id.value := Page(id.value)], lastPageId := id.value, refMap := map[])
    case ClosePage(pageId, _, next) =>
      if !Closes(s, op) then s
      else
        var pages := s.pages - {pageId};
        s.(pages := pages,
           lastPageId := if s.lastPageId != pageId then s.lastPageId else if pages == map[] then "" else next)
    case Snapshot(_, _, _, _, axNodes) =>
      if BuildsTree(s, op) then s.(refMap := Refs(axNodes.value), snapshotId := NextId(s.snapshotId)) else s
  }

  /** Target ids are not empty, and map iteration yields a key of the map. */
  predicate Possible(s: BrowserState, op: Op) {
    match op
    case Navigate(_, _, created, _, _) => created != ""
    case ClosePage(pageId, _, next) => Closes(s, op) && s.pages - {pageId} != map[] ==> next in s.pages - {pageId}
    case _ => true
  }

  // ---- the invariant ----

  predicate Inv(s: BrowserState) {
    && (!s.running ==> s.pages == map[] && s.refMap == map[] && s.lastPageId == "")
    && (s.lastPageId == "" <==> s.pages == map[])
    && (s.lastPageId != "" ==> s.lastPageId in s.pages)
    && (forall k :: k in s.pages ==> k != "" && s.pages[k].targetId == k)
    && s.snapshotId < UINT64
  }

  /** Every operation keeps pages, last page and ref map in agreement, on its error paths too. */
  lemma EveryOpKeepsInv(s: BrowserState, op: Op)
    requires Inv(s) && Possible(s, op)
    ensures Inv(Do(s, op))
  {
    if op.ClosePage? && Closes(s, op) {
      var pages := s.pages - {op.pageId};
      assert pages != map[] ==> op.next in pages;
      if s.lastPageId != op.pageId {
        assert s.lastPageId in pages;
      }
    } else if op.Navigate? && Tracked(s, op).Some? {
      var id := Tracked(s, op).value;
      assert id in Do(s, op).pages;
    }
  }

  /** getPage without an id succeeds exactly when some page is open, and then finds the last one used. */
  lemma DefaultPageIff(s: BrowserState)
    requires Inv(s)
    ensures GetPage(s, "").Ok? <==> s.pages != map[]
    ensures GetPage(s, "").Ok? ==> GetPage(s, "") == Ok(s.lastPageId) && s.lastPageId in s.pages
    ensures forall id :: id != "" ==> GetPage(s, id) == if id in s.pages then Ok(id) else Err(NotFound)
  {
  }

  // ---- what each operation does ----

  lemma StartLaw(s: BrowserState, launches: bool, connects: bool)
    requires Inv(s)
    ensures var s' := Do(s, Start(launches, connects));
      && (s'.running <==> s.running || (launches && connects))
      && s'.pages == s.pages && s'.refMap == s.refMap && s'.snapshotId == s.snapshotId
      && s'.lastPageId == s.lastPageId
  {
  }

  /** A navigation that gets past WaitLoad makes its page the last one, be it new or open, and drops the refs; no
      other page is affected. Any other navigation changes nothing. */
  lemma NavigateLaw(s: BrowserState, op: Op)
    requires Inv(s) && Possible(s, op) && op.Navigate?
    ensures var id := if op.pageId != "" then op.pageId else op.created;
      var s' := Do(s, op);
      if s.running && op.navigates && op.loads && (op.pageId == "" || op.pageId in s.pages) then
        && GetPage(s', "") == Ok(id) && s'.lastPageId == id && id in s'.pages
        && s'.pages.Keys == s.pages.Keys + {id} && (forall k :: k in s.pages ==> s'.pages[k] == s.pages[k])
        && s'.refMap == map[] && s'.running && s'.snapshotId == s.snapshotId
      else
        s' == s
  {
    EveryOpKeepsInv(s, op);
  }

  /** Closing a page that is not the last one used keeps that one; closing the last one leaves an open page as the
      last, or none. Refs are kept, also those of the closed page. */
  lemma ClosePageLaw(s: BrowserState, op: Op)
    requires Inv(s) && Possible(s, op) && op.ClosePage?
    ensures var s' := Do(s, op);
      if s.running && op.pageId in s.pages && op.closes then
        && s'.pages.Keys == s.pages.Keys - {op.pageId} && (forall k :: k in s'.pages ==> s'.pages[k] == s.pages[k])
        && (op.pageId != s.lastPageId ==> s'.lastPageId == s.lastPageId)
        && (s'.pages != map[] ==> s'.lastPageId in s'.pages) && (s'.pages == map[] ==> s'.lastPageId == "")
        && s'.refMap == s.refMap && s'.running && s'.snapshotId == s.snapshotId
      else
        s' == s
  {
    EveryOpKeepsInv(s, op);
  }

  /** Only a snapshot that reads the nodes of an open page, after its HTML if that is wanted too, changes anything:
      the refs and the snapshot id. The nodes are wanted unless HTML alone was asked for. */
  lemma SnapshotLaw(s: BrowserState, op: Op)
    requires Inv(s) && op.Snapshot?
    ensures var s' := Do(s, op);
      var open := s.running && if op.pageId == "" then s.pages != map[] else op.pageId in s.pages;
      var htmlOk := (op.wantA11y && !op.wantDom) || op.html.Some?;
      if open && htmlOk && !(op.wantDom && !op.wantA11y) && op.axNodes.Some? then
        && s'.refMap == Refs(op.axNodes.value) && s'.snapshotId == (s.snapshotId + 1) % 0x1_0000_0000_0000_0000
        && s'.pages == s.pages && s'.lastPageId == s.lastPageId && s'.running
      else
        s' == s
  {
    DefaultPageIff(s);
    assert GetPage(s, op.pageId).Ok? <==> if op.pageId == "" then s.pages != map[] else op.pageId in s.pages;
  }

  // ---- whole runs ----

  function Run(ops: seq<Op>): BrowserState {
    if ops == [] then STOPPED else Do(Run(ops[..|ops| - 1]), ops[|ops| - 1])
  }

  predicate AllPossible(ops: seq<Op>) {
    ops == [] || (AllPossible(ops[..|ops| - 1]) && Possible(Run(ops[..|ops| - 1]), ops[|ops| - 1]))
  }

  lemma {:induction false} RunKeepsInv(ops: seq<Op>)
    requires AllPossible(ops)
    ensures Inv(Run(ops))
  {
    if ops != [] {
      RunKeepsInv(ops[..|ops| - 1]);
      EveryOpKeepsInv(Run(ops[..|ops| - 1]), ops[|ops| - 1]);
    }
  }

  /** The nodes of the latest snapshot of the run that built a tree. */
  function LatestNodes(ops: seq<Op>): Option<seq<AXNode>> {
    if ops == [] then None
    else
      var front, op := ops[..|ops| - 1], ops[|ops| - 1];
      if op.Snapshot? && BuildsTree(Run(front), op) then op.axNodes else LatestNodes(front)
  }

  /** In every run the ref map is empty or exactly the refs of the latest accessibility snapshot, so a ref
      either resolves to the backend id of a node of that snapshot, or not at all. */
  lemma {:induction false} RefsAreOfLatestSnapshot(ops: seq<Op>)
    ensures var s := Run(ops);
      s.refMap == map[] || (LatestNodes(ops).Some? && s.refMap == Refs(LatestNodes(ops).value))
  {
    if ops != [] {
      RefsAreOfLatestSnapshot(ops[..|ops| - 1]);
    }
  }

  lemma ResolvedRefsAreCurrent(ops: seq<Op>, ref: string)
    ensures var r := ResolveRef(Run(ops), ref);
      r.Ok? ==>
        && ref == Ref(r.value) && LatestNodes(ops).Some?
        && exists n :: n in LatestNodes(ops).value && HasRef(n) && n.backendId == r.value
  {
    RefsAreOfLatestSnapshot(ops);
    if LatestNodes(ops).Some? {
      RefsExactly(LatestNodes(ops).value);
    }
  }

  /** Straight after a snapshot every node of the returned tree that has a backend node shows a ref, and is
      resolved by it. */
  lemma SnapshotRefsResolve(s: BrowserState, op: Op, entries: map<string, PbNode>, k: string)
    requires op.Snapshot? && BuildsTree(s, op) && EntriesOk(entries, ById(op.axNodes.value)) && k in entries
    ensures var id := ById(op.axNodes.value)[k].backendId;
      && (id != 0 ==> entries[k].ref == "e" + Decimal(id) && ResolveRef(Do(s, op), "e" + Decimal(id)) == Ok(id))
      && (id == 0 ==> entries[k].ref == "")
  {
    RefsResolve(op.axNodes.value, entries, k);
  }

  // ---- refs that outlive their document ----

  /** Chromium has begun to load another document, into a new page or an open one. */
  predicate Navigated(s: BrowserState, op: Op)
    requires op.Navigate?
  {
    s.running && op.navigates && (op.pageId == "" || op.pageId in s.pages)
  }

  /** A navigation drops the refs only if it gets past WaitLoad: otherwise they still resolve, although they
      may belong to the document that has just been replaced. */
  lemma RefSurvivesNavigationIff(s: BrowserState, op: Op, ref: string)
    requires Inv(s) && op.Navigate? && Navigated(s, op)
    ensures ResolveRef(Do(s, op), ref).Ok? <==> !op.loads && ResolveRef(s, ref).Ok?
  {
    if op.loads {
      assert Tracked(s, op).Some?;
    }
  }

  /** Since the latest snapshot, if any, the refs have been dropped. */
  predicate DroppedSince(ops: seq<Op>) {
    if ops == [] then true
    else
      var s, op := Run(ops[..|ops| - 1]), ops[|ops| - 1];
      if op.Snapshot? && BuildsTree(s, op) then false
      else if op.Stop? && s.running then true
      else if op.Navigate? && Tracked(s, op).Some? then true
      else DroppedSince(ops[..|ops| - 1])
  }

  /** The ref map after any run: the refs of the latest snapshot until they are dropped. */
  lemma {:induction false} RefMapIs(ops: seq<Op>)
    ensures !DroppedSince(ops) ==> LatestNodes(ops).Some?
    ensures Run(ops).refMap == if DroppedSince(ops) then map[] else Refs(LatestNodes(ops).value)
  {
    if ops != [] {
      RefMapIs(ops[..|ops| - 1]);
    }
  }

  function SnapshotsBuilt(ops: seq<Op>): nat {
    if ops == [] then 0
    else
      var front, op := ops[..|ops| - 1], ops[|ops| - 1];
      SnapshotsBuilt(front) + if op.Snapshot? && BuildsTree(Run(front), op) then 1 else 0
  }

  /** The snapshot id counts the trees built, modulo 2^64: stopping the browser does not reset it, so two
      snapshots less than 2^64 apart never share an id. */
  lemma {:induction false} SnapshotIdCounts(ops: seq<Op>)
    ensures Run(ops).snapshotId == SnapshotsBuilt(ops) % 0x1_0000_0000_0000_0000
  {
    if ops != [] {
      SnapshotIdCounts(ops[..|ops| - 1]);
    }
  }

  // ---- the object ----

  class Manager {
    var running: bool
    var pages: map<string, Page>
    var refMap: map<string, int>
    var snapshotId: nat
    var lastPageId: string

    function State(): BrowserState
      reads this
    {
      BrowserState(running, pages, refMap, snapshotId, lastPageId)
    }

    constructor ()
      ensures State() == STOPPED
    {
      running, pages, refMap, snapshotId, lastPageId := false, map[], map[], 0, "";
    }

    method StartBrowser(launches: bool, connects: bool) returns (r: Outcome<()>)
      modifies this
      ensures State() == Do(old(State()), Start(launches, connects))
      ensures r.Ok? <==> old(running) || (launches && connects)
      ensures r.Ok? <==> running
    {
      if running {
        return Ok(());
      }
      if !launches || !connects {
        return Err(Failed);
      }
      running := true;
      return Ok(());
    }

    method StopBrowser(closes: bool) returns (r: Outcome<()>)
      modifies this
      ensures State() == Do(old(State()), Stop(closes))
      ensures r.Ok? <==> !old(running) || closes
      ensures Inv(old(State())) ==> State() == STOPPED.(snapshotId := old(snapshotId))
    {
      if !running {
        return Ok(());
      }
      ClosePages();
      if !closes {
        running, lastPageId, refMap := false, "", map[];
        return Err(Failed);
      }
      running, lastPageId, refMap := false, "", map[];
      return Ok(());
    }

    /** Every page is deleted, whatever its Close answers. */
    method ClosePages()
      modifies this`pages
      ensures pages == map[]
    {
      var todo: set<string> := pages.Keys;
      while todo != {}
        invariant pages.Keys == todo
        decreases todo
      {
        var id := NextKey(todo);
        todo := todo - {id};
        pages := pages - {id};
      }
    }

    method NavigatePage(pageId: string, navigates: bool, created: string, loads: bool, info: Option<PageInfo>)
      returns (r: Outcome<PageResult>)
      requires Inv(State()) && created != ""
      modifies this
      ensures var op := Navigate(pageId, navigates, created, loads, info);
        && State() == Do(old(State()), op) && Inv(State())
        && (r.Ok? <==>
              && old(running) && navigates && loads && (pageId == "" || pageId in old(pages)) && info.Some?)
        && (r.Ok? ==>
              && r.value.pageId == lastPageId == (if pageId != "" then pageId else created)
              && lastPageId in pages && GetPage(State(), "") == Ok(lastPageId) && refMap == map[]
              && r.value.url == info.value.url && r.value.title == info.value.title)
        && (r == Err(NotStarted) <==> !old(running))
        && (r == Err(NotFound) <==> old(running) && pageId != "" && pageId !in old(pages))
    {
      EveryOpKeepsInv(State(), Navigate(pageId, navigates, created, loads, info));
      if !running {
        return Err(NotStarted);
      }
      var page;
      if pageId != "" {
        if pageId !in pages {
          return Err(NotFound);
        }
        page := pages[pageId];
        if !navigates {
          return Err(Failed);
        }
      } else {
        if !navigates {
          return Err(Failed);
        }
        page := Page(created);
      }
      if !loads {
        return Err(Failed);
      }
      var id := page.targetId;
      pages := pages[id := page];
      lastPageId := id;
      refMap := map[];
      if info.None? {
        return Err(Failed);
      }
      return Ok(PageResult(id, info.value.url, info.value.title));
    }

    method CloseTrackedPage(pageId: string, closes: bool) returns (r: Outcome<()>, ghost next: string)
      requires Inv(State())
      modifies this
      ensures var op := ClosePage(pageId, closes, next);
        && Possible(old(State()), op) && State() == Do(old(State()), op) && Inv(State())
        && (r.Ok? <==> old(running) && pageId in old(pages) && closes)
        && (r == Err(NotStarted) <==> !old(running))
        && (r == Err(NotFound) <==> old(running) && pageId !in old(pages))
    {
      next := "";
      if !running {
        return Err(NotStarted), next;
      }
      if pageId !in pages {
        return Err(NotFound), next;
      }
      if !closes {
        return Err(Failed), next;
      }
      ghost var before := State();
      pages := pages - {pageId};
      if pages.Keys != {} {
        next := AnyKey(pages);
      }
      if lastPageId == pageId {
        lastPageId := "";
        if pages.Keys != {} {
          lastPageId := NextKey(pages.Keys);
          next := lastPageId;
        }
      }
      EveryOpKeepsInv(before, ClosePage(pageId, closes, next));
      return Ok(()), next;
    }

    ghost function AnyKey(m: map<string, Page>): (k: string)
      requires m.Keys != {}
      ensures k in m
    {
      var k :| k in m.Keys;
      k
    }

    /** The HTML, if wanted, and the snapshot id (sent as its decimal text) when a tree was built; with the
        tree itself. */
    method TakeSnapshot(pageId: string, wantDom: bool, wantA11y: bool, html: Option<string>,
                        axNodes: Option<seq<AXNode>>, includeBounds: bool, boxOf: BoxModel)
      returns (r: Outcome<SnapshotResult>, tree: PbNode?,
               ghost entries: map<string, PbNode>, ghost order: seq<string>)
      modifies this
      ensures var op := Snapshot(pageId, wantDom, wantA11y, html, axNodes);
        && State() == Do(old(State()), op)
        && (r.Ok? <==>
              && old(running) && GetPage(old(State()), pageId).Ok?
              && (wantDom || !wantA11y ==> html.Some?) && (wantA11y || !wantDom ==> axNodes.Some?))
        && (r.Ok? && (wantDom || !wantA11y) ==> r.value.domHtml == html)
        && (r.Ok? && wantA11y && !wantDom ==> r.value.domHtml == None)
        && (r.Ok? && (wantA11y || !wantDom) ==> r.value.snapshotId == Some(snapshotId))
        && (r.Ok? && wantDom && !wantA11y ==> r.value.snapshotId == None)
        && (tree != null <==> BuildsTree(old(State()), op))
        && (tree != null ==> TreeOf(axNodes.value, includeBounds, boxOf, tree, entries, order))
        && (r == Err(NotStarted) <==> !old(running))
        && (r == Err(NotFound) <==> old(running) && GetPage(old(State()), pageId).Err?)
    {
      entries, order := map[], [];
      tree := null;
      if !running {
        return Err(NotStarted), null, entries, order;
      }
      if GetPage(State(), pageId).Err? {
        return Err(NotFound), null, entries, order;
      }
      var dom, a11y := wantDom, wantA11y;
      if !dom && !a11y {
        dom, a11y := true, true;
      }
      var result := SnapshotResult(None, None);
      if dom {
        if html.None? {
          return Err(Failed), null, entries, order;
        }
        result := result.(domHtml := html);
      }
      if a11y {
        if axNodes.None? {
          return Err(Failed), null, entries, order;
        }
        tree, entries, order := StoreTree(axNodes.value, includeBounds, boxOf);
        result := result.(snapshotId := Some(snapshotId));
      }
      r := Ok(result);
    }

    method StoreTree(nodes: seq<AXNode>, includeBounds: bool, boxOf: BoxModel)
      returns (tree: PbNode, ghost entries: map<string, PbNode>, ghost order: seq<string>)
      modifies this
      ensures State() == old(State()).(refMap := Refs(nodes), snapshotId := NextId(old(snapshotId)))
      ensures TreeOf(nodes, includeBounds, boxOf, tree, entries, order)
    {
      var refs;
      tree, refs, entries, order := BuildAccessibilityTree(nodes, includeBounds, boxOf);
      refMap := refs;
      snapshotId := NextId(snapshotId);
    }
  }
}
