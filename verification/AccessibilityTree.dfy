/** buildAccessibilityTree of worker/browser.go: a flat node list becomes a tree of objects, linked while
    a Go map is iterated in arbitrary order, and a map from refs to backend node ids. */
module AccessibilityTree {
  import opened Basics

  /** A CDP accessibility node; an empty `parentId` marks a root. */
  datatype AXNode = AXNode(id: string, parentId: string, ignored: bool, backendId: int, role: Option<string>,
                           name: Option<string>, description: Option<string>, value: Option<string>)

  // ---- refs ----

  function Digit(d: nat): char
    requires d < 10
  {
    ['0', '1', '2', '3', '4', '5', '6', '7', '8', '9'][d]
  }

  function DecimalNat(n: nat): (s: string)
    ensures s != "" && s[0] != '-'
    ensures |s| > 1 <==> n >= 10
  {
    if n < 10 then [Digit(n)] else DecimalNat(n / 10) + [Digit(n % 10)]
  }

  /** fmt's %d */
  function Decimal(n: int): string {
    if n < 0 then "-" + DecimalNat(-n) else DecimalNat(n)
  }

  /** fmt.Sprintf("e%d", id) */
  function Ref(id: int): string {
    "e" + Decimal(id)
  }

  lemma {:induction false} DecimalNatInjective(a: nat, b: nat)
    requires DecimalNat(a) == DecimalNat(b)
    ensures a == b
  {
    var s, t := DecimalNat(a), DecimalNat(b);
    assert s[|s| - 1] == Digit(a % 10) && t[|t| - 1] == Digit(b % 10);
    if a >= 10 && b >= 10 {
      assert s[..|s| - 1] == DecimalNat(a / 10) && t[..|t| - 1] == DecimalNat(b / 10);
      DecimalNatInjective(a / 10, b / 10);
    }
  }

  /** The number that a string of digits stands for. */
  function Read(s: string): int {
    if s == "" then 0 else 10 * Read(s[..|s| - 1]) + (s[|s| - 1] as int - '0' as int)
  }

  predicate AllDigits(s: string) {
    forall i :: 0 <= i < |s| ==> '0' <= s[i] <= '9'
  }

  lemma {:induction false} DecimalNatReads(n: nat)
    ensures AllDigits(DecimalNat(n)) && Read(DecimalNat(n)) == n
    ensures n > 0 ==> DecimalNat(n)[0] != '0'
  {
    if n >= 10 {
      DecimalNatReads(n / 10);
      var front, d := DecimalNat(n / 10), Digit(n % 10);
      TakeDrop(front, [d]);
      assert (front + [d])[|front|] == d;
    } else {
      assert DecimalNat(n) == [Digit(n)] && [Digit(n)][..0] == "";
      assert Read("") == 0;
    }
  }

  /** The decimal text of a number: its digits read back as its size, without a leading zero, and a sign if it is
      negative. */
  lemma DecimalReads(n: int)
    ensures n >= 0 ==> AllDigits(Decimal(n)) && Read(Decimal(n)) == n
    ensures n < 0 ==> Decimal(n)[..1] == "-" && AllDigits(Decimal(n)[1..]) && Read(Decimal(n)[1..]) == -n
    ensures n > 0 ==> Decimal(n)[0] != '0'
    ensures n < 0 ==> |Decimal(n)| > 1 && Decimal(n)[1] != '0'
    ensures Decimal(0) == "0"
  {
    DecimalNatReads(if n < 0 then -n else n);
    TakeDrop("-", DecimalNat(if n < 0 then -n else n));
  }

  /** Two backend ids never share a ref. */
  lemma RefInjective(a: int, b: int)
    requires Ref(a) == Ref(b)
    ensures a == b
  {
    TakeDrop("e", Decimal(a));
    TakeDrop("e", Decimal(b));
    if a < 0 && b < 0 {
      TakeDrop("-", DecimalNat(-a));
      TakeDrop("-", DecimalNat(-b));
      DecimalNatInjective(-a, -b);
    } else if a >= 0 && b >= 0 {
      DecimalNatInjective(a, b);
    }
  }

  // ---- first pass ----

  /** nodesByID: the non-ignored nodes; a later node replaces an earlier one with the same id. */
  function ById(nodes: seq<AXNode>): map<string, AXNode> {
    if nodes == [] then map[]
    else
      var front, n := ById(nodes[..|nodes| - 1]), nodes[|nodes| - 1];
      if n.ignored then front else front[n.id := n]
  }

  function Refs(nodes: seq<AXNode>): map<string, int> {
    if nodes == [] then map[]
    else
      var front, n := Refs(nodes[..|nodes| - 1]), nodes[|nodes| - 1];
      if n.ignored || n.backendId == 0 then front else front[Ref(n.backendId) := n.backendId]
  }

  predicate HasRef(n: AXNode) {
    !n.ignored && n.backendId != 0
  }

  /** The ref map holds the refs of the non-ignored nodes with a backend id, each with its own id. */
  lemma {:induction false} RefsExactly(nodes: seq<AXNode>)
    ensures forall n :: n in nodes && HasRef(n) ==>
      Ref(n.backendId) in Refs(nodes) && Refs(nodes)[Ref(n.backendId)] == n.backendId
    ensures forall r :: r in Refs(nodes) ==>
      r == Ref(Refs(nodes)[r]) && exists n :: n in nodes && HasRef(n) && n.backendId == Refs(nodes)[r]
  {
    if nodes != [] {
      var front, last := nodes[..|nodes| - 1], nodes[|nodes| - 1];
      assert nodes == front + [last];
      RefsExactly(front);
      forall n | n in nodes && HasRef(n)
        ensures Ref(n.backendId) in Refs(nodes) && Refs(nodes)[Ref(n.backendId)] == n.backendId
      {
        if n in front && HasRef(last) && Ref(n.backendId) == Ref(last.backendId) {
          RefInjective(n.backendId, last.backendId);
        }
      }
    }
  }

  /** `nodes[i]` is the last of the non-ignored nodes with its id. */
  predicate IsLast(nodes: seq<AXNode>, i: nat) {
    && i < |nodes| && !nodes[i].ignored
    && forall j :: i < j < |nodes| && !nodes[j].ignored ==> nodes[j].id != nodes[i].id
  }

  /** The lookup table holds the last non-ignored node of every id. */
  lemma {:induction false} ByIdExactly(nodes: seq<AXNode>)
    ensures forall k :: k in ById(nodes) ==>
      ById(nodes)[k].id == k && !ById(nodes)[k].ignored && ById(nodes)[k] in nodes
    ensures forall n :: n in nodes && !n.ignored ==> n.id in ById(nodes)
    ensures forall i: nat :: IsLast(nodes, i) ==> nodes[i].id in ById(nodes) && ById(nodes)[nodes[i].id] == nodes[i]
  {
    if nodes != [] {
      var front, last := nodes[..|nodes| - 1], nodes[|nodes| - 1];
      assert nodes == front + [last];
      ByIdExactly(front);
      forall i: nat | IsLast(nodes, i)
        ensures nodes[i].id in ById(nodes) && ById(nodes)[nodes[i].id] == nodes[i]
      {
        if i < |front| {
          assert IsLast(front, i);
        }
      }
    }
  }

  function RefOf(n: AXNode): string {
    if n.backendId != 0 then Ref(n.backendId) else ""
  }

  function TextOf(s: Option<string>): string {
    if s.Some? then s.value else ""
  }

  function NonEmpty(s: Option<string>): Option<string> {
    if s == Some("") then None else s
  }

  /** A text that may be missing is passed on unless it is empty. */
  predicate IsKept(text: Option<string>, shown: Option<string>) {
    && (text.Some? && text.value != "" ==> shown == text)
    && (text.None? || text == Some("") ==> shown == None)
  }

  /** remotehandsv1.BoundingBox */
  datatype Box = Box(x: real, y: real, width: real, height: real)

  /** remotehandsv1.AccessibilityNode */
  class PbNode {
    const ref: string
    const role: string
    const name: string
    const description: Option<string>
    const value: Option<string>
    var children: seq<PbNode>
    var bounds: Option<Box>

    constructor (n: AXNode)
      ensures children == [] && bounds == Option.None && Shows(n)
    {
      ref, role, name := RefOf(n), TextOf(n.role), TextOf(n.name);
      description, value := NonEmpty(n.description), NonEmpty(n.value);
      children, bounds := [], Option.None;
    }

    /** The empty tree. */
    constructor None()
      ensures children == [] && bounds == Option.None && role == "none" && ref == ""
    {
      ref, role, name, description, value := "", "none", "", Option.None, Option.None;
      children, bounds := [], Option.None;
    }

    /** The ref if there is a backend node; role and name as they are, empty if missing; description and value
        only if there is something in them. */
    predicate Shows(n: AXNode) {
      && (n.backendId != 0 ==> ref == "e" + Decimal(n.backendId))
      && (n.backendId == 0 ==> ref == "")
      && (n.role.Some? ==> role == n.role.value) && (n.role.None? ==> role == "")
      && (n.name.Some? ==> name == n.name.value) && (n.name.None? ==> name == "")
      && IsKept(n.description, description) && IsKept(n.value, value)
    }
  }

  /** One object per node id. */
  ghost predicate EntriesOk(entries: map<string, PbNode>, byId: map<string, AXNode>) {
    && entries.Keys == byId.Keys
    && (forall k :: k in entries ==> entries[k].Shows(byId[k]))
    && forall j, k :: j in entries && k in entries && j != k ==> entries[j] != entries[k]
  }

  method FirstPass(nodes: seq<AXNode>)
    returns (entries: map<string, PbNode>, byId: map<string, AXNode>, refMap: map<string, int>)
    ensures EntriesOk(entries, byId) && byId == ById(nodes) && refMap == Refs(nodes)
    ensures fresh(entries.Values)
    ensures forall k :: k in entries ==> entries[k].children == [] && entries[k].bounds == None
  {
    entries, byId, refMap := map[], map[], map[];
    for i := 0 to |nodes|
      invariant EntriesOk(entries, byId) && byId == ById(nodes[..i]) && refMap == Refs(nodes[..i])
      invariant forall k :: k in entries ==>
        fresh(entries[k]) && entries[k].children == [] && entries[k].bounds == None
    {
      var n := nodes[i];
      assert nodes[..i + 1][..i] == nodes[..i];
      if n.ignored {
        continue;
      }
      var pb := new PbNode(n);
      if n.backendId != 0 {
        refMap := refMap[pb.ref := n.backendId];
      }
      entries, byId := entries[n.id := pb], byId[n.id := n];
    }
    assert nodes[..|nodes|] == nodes;
  }

  // ---- second pass ----

  /** The ids in `order` whose parent is `k`, in that order. A root is nobody's child. */
  function Kids(order: seq<string>, byId: map<string, AXNode>, k: string): seq<string>
    requires forall n :: n in order ==> n in byId
  {
    if order == [] then []
    else
      var front, n := order[..|order| - 1], order[|order| - 1];
      assert n in order;
      var rest := Kids(front, byId, k);
      if byId[n].parentId == k && k != "" then rest + [n] else rest
  }

  /** `order` visits every key once. */
  ghost predicate Visits(order: seq<string>, byId: map<string, AXNode>) {
    Distinct(order) && forall k :: k in order <==> k in byId
  }

  lemma {:induction false} KidsAre(order: seq<string>, byId: map<string, AXNode>, k: string)
    requires forall n :: n in order ==> n in byId
    requires Distinct(order)
    ensures var kids := Kids(order, byId, k);
      && Distinct(kids)
      && forall n :: n in kids <==> n in order && byId[n].parentId == k && k != ""
  {
    if order != [] {
      var front, last := order[..|order| - 1], order[|order| - 1];
      assert order == front + [last];
      assert forall n :: n in front ==> n in order;
      KidsAre(front, byId, k);
    }
  }

  /** The heap holds the forest: each object's children are those of its node, in visiting order. */
  ghost predicate Linked(entries: map<string, PbNode>, byId: map<string, AXNode>, order: seq<string>)
    requires entries.Keys == byId.Keys && forall n :: n in order ==> n in byId
    reads entries.Values
  {
    forall k :: k in entries ==>
      var kids := Kids(order, byId, k);
      && |entries[k].children| == |kids|
      && forall i :: 0 <= i < |kids| ==> kids[i] in entries && entries[k].children[i] == entries[kids[i]]
  }

  /** The last visited root, if any. */
  function LastRoot(order: seq<string>, byId: map<string, AXNode>): Option<string>
    requires forall n :: n in order ==> n in byId
  {
    if order == [] then None
    else
      var n := order[|order| - 1];
      assert n in order;
      if byId[n].parentId == "" then Some(n) else LastRoot(order[..|order| - 1], byId)
  }

  lemma {:induction false} LastRootIsRoot(order: seq<string>, byId: map<string, AXNode>)
    requires forall n :: n in order ==> n in byId
    ensures var r := LastRoot(order, byId);
      && (r.Some? ==> r.value in order && byId[r.value].parentId == "")
      && (r.None? ==> forall n :: n in order ==> byId[n].parentId != "")
  {
    if order != [] {
      var front, last := order[..|order| - 1], order[|order| - 1];
      assert order == front + [last];
      assert forall n :: n in front ==> n in order;
      LastRootIsRoot(front, byId);
    }
  }

  lemma LinkStep(byId: map<string, AXNode>, order: seq<string>, n: string)
    requires (forall m :: m in order ==> m in byId) && n in byId
    ensures forall m :: m in order + [n] ==> m in byId
    ensures forall k :: Kids(order + [n], byId, k)
                     == (if byId[n].parentId == k && k != "" then Kids(order, byId, k) + [n] else Kids(order, byId, k))
    ensures LastRoot(order + [n], byId) == if byId[n].parentId == "" then Some(n) else LastRoot(order, byId)
  {
    assert (order + [n])[..|order|] == order;
  }

  method Attach(entries: map<string, PbNode>, byId: map<string, AXNode>, n: string, ghost order: seq<string>)
    requires EntriesOk(entries, byId) && n in byId && forall m :: m in order ==> m in byId
    requires Linked(entries, byId, order)
    modifies entries.Values`children
    ensures forall m :: m in order + [n] ==> m in byId
    ensures Linked(entries, byId, order + [n])
  {
    LinkStep(byId, order, n);
    var parentId := byId[n].parentId;
    if parentId != "" && parentId in entries {
      var parent := entries[parentId];
      assert forall k :: k in entries && k != parentId ==> entries[k] != parent;
      parent.children := parent.children + [entries[n]];
    }
  }

  method SecondPass(entries: map<string, PbNode>, byId: map<string, AXNode>)
    returns (rootId: Option<string>, ghost order: seq<string>)
    requires EntriesOk(entries, byId)
    requires forall k :: k in entries ==> entries[k].children == []
    modifies entries.Values`children
    ensures Visits(order, byId) && Linked(entries, byId, order) && rootId == LastRoot(order, byId)
  {
    rootId, order := None, [];
    var todo: set<string> := byId.Keys;
    while todo != {}
      invariant todo <= byId.Keys && Distinct(order)
      invariant forall k :: k in order <==> k in byId && k !in todo
      invariant Linked(entries, byId, order) && rootId == LastRoot(order, byId)
      decreases todo
    {
      var n := NextKey(todo);
      todo := todo - {n};
      Attach(entries, byId, n, order);
      LinkStep(byId, order, n);
      if byId[n].parentId == "" {
        rootId := Some(n);
      }
      order := order + [n];
    }
  }

  // ---- third pass ----

  /** What CDP answers for the box model of a backend node; `None` also when it has none. */
  type BoxModel = int -> Option<Box>

  function BoundsOf(n: AXNode, includeBounds: bool, boxOf: BoxModel): Option<Box> {
    if includeBounds && n.backendId != 0 then boxOf(n.backendId) else None
  }

  ghost predicate Bounded(entries: map<string, PbNode>, byId: map<string, AXNode>, includeBounds: bool, boxOf: BoxModel)
    requires entries.Keys == byId.Keys
    reads entries.Values
  {
    forall k :: k in entries ==> entries[k].bounds == BoundsOf(byId[k], includeBounds, boxOf)
  }

  method ThirdPass(entries: map<string, PbNode>, byId: map<string, AXNode>, boxOf: BoxModel)
    requires EntriesOk(entries, byId) && forall k :: k in entries ==> entries[k].bounds == None
    modifies entries.Values`bounds
    ensures Bounded(entries, byId, true, boxOf)
  {
    var todo: set<string> := byId.Keys;
    while todo != {}
      invariant todo <= byId.Keys
      invariant forall k :: k in entries ==>
        entries[k].bounds == if k in todo then None else BoundsOf(byId[k], true, boxOf)
      decreases todo
    {
      var n := NextKey(todo);
      todo := todo - {n};
      if byId[n].backendId == 0 {
        continue;
      }
      var box := boxOf(byId[n].backendId);
      if box.Some? {
        entries[n].bounds := box;
      }
    }
  }

  // ---- the result ----

  /** `root` is the object of the last visited root of a forest linked in the order `order`, or the empty
      tree when no node is a root. */
  ghost predicate Rooted(nodes: seq<AXNode>, root: PbNode, entries: map<string, PbNode>, order: seq<string>)
    reads entries.Values, root
  {
    && EntriesOk(entries, ById(nodes)) && Visits(order, ById(nodes)) && Linked(entries, ById(nodes), order)
    && match LastRoot(order, ById(nodes))
       case Some(id) => id in entries && root == entries[id]
       case None => root.role == "none" && root.ref == "" && root.children == [] && root.bounds == None
  }

  /** The whole result: the linked forest with its root, and the boxes. */
  ghost predicate TreeOf(nodes: seq<AXNode>, includeBounds: bool, boxOf: BoxModel,
                         root: PbNode, entries: map<string, PbNode>, order: seq<string>)
    reads entries.Values, root
  {
    Rooted(nodes, root, entries, order) && Bounded(entries, ById(nodes), includeBounds, boxOf)
  }

  /** The first two passes. */
  method Link(nodes: seq<AXNode>)
    returns (rootId: Option<string>, refMap: map<string, int>, entries: map<string, PbNode>,
             byId: map<string, AXNode>, ghost order: seq<string>)
    ensures refMap == Refs(nodes) && byId == ById(nodes) && fresh(entries.Values)
    ensures EntriesOk(entries, byId) && Visits(order, byId) && Linked(entries, byId, order)
    ensures rootId == LastRoot(order, byId) && (rootId.Some? ==> rootId.value in entries)
    ensures forall k :: k in entries ==> entries[k].bounds == None
  {
    entries, byId, refMap := FirstPass(nodes);
    rootId, order := SecondPass(entries, byId);
    LastRootIsRoot(order, byId);
  }

  method BuildAccessibilityTree(nodes: seq<AXNode>, includeBounds: bool, boxOf: BoxModel)
    returns (root: PbNode, refMap: map<string, int>, ghost entries: map<string, PbNode>, ghost order: seq<string>)
    ensures refMap == Refs(nodes) && fresh(root) && fresh(entries.Values)
    ensures TreeOf(nodes, includeBounds, boxOf, root, entries, order)
  {
    var id, objects, byId;
    id, refMap, objects, byId, order := Link(nodes);
    entries := objects;
    if includeBounds {
      ThirdPass(objects, byId, boxOf);
    }
    if id.Some? {
      root := objects[id.value];
      assert root in objects.Values;
    } else {
      root := new PbNode.None();
    }
  }

  // ---- the shape of the result ----

  /** An unbroken chain of non-ignored parents from the last element of `p` up to `r`. */
  predicate ParentChain(byId: map<string, AXNode>, r: string, p: seq<string>) {
    if |p| <= 1 then p == [r] && r in byId
    else
      && p[|p| - 1] in byId && byId[p[|p| - 1]].parentId == p[|p| - 2] && p[|p| - 2] != ""
      && ParentChain(byId, r, p[..|p| - 1])
  }

  /** Every node is reached along at most one path from a root: the object graph below the root is a
      tree, with no sharing, no repetition and no cycle, even if other nodes of the list form cycles. */
  lemma {:induction false} ChainsAreUnique(byId: map<string, AXNode>, r: string, p: seq<string>, q: seq<string>)
    requires r in byId && byId[r].parentId == "" && ParentChain(byId, r, p) && ParentChain(byId, r, q)
    requires p[|p| - 1] == q[|q| - 1]
    ensures p == q
    decreases |p|
  {
    if |p| > 1 && |q| > 1 {
      ChainsAreUnique(byId, r, p[..|p| - 1], q[..|q| - 1]);
      assert p == p[..|p| - 1] + [p[|p| - 1]] && q == q[..|q| - 1] + [q[|q| - 1]];
    }
  }

  /** A path through the children fields of the objects, starting at `root`. */
  ghost predicate ObjectPath(root: PbNode, os: seq<PbNode>)
    reads os
  {
    if |os| <= 1 then os == [root]
    else os[|os| - 1] in os[|os| - 2].children && ObjectPath(root, os[..|os| - 1])
  }

  /** `os` are the objects of the ids in `p`. */
  ghost predicate Along(entries: map<string, PbNode>, p: seq<string>, os: seq<PbNode>) {
    |p| == |os| && forall i :: 0 <= i < |p| ==> p[i] in entries && os[i] == entries[p[i]]
  }

  /** The object of `k` holds no child but objects of nodes, and that of `n` exactly if `n` names `k`. */
  ghost predicate ChildFits(entries: map<string, PbNode>, byId: map<string, AXNode>, k: string, n: string)
    requires entries.Keys == byId.Keys && k in entries && n in entries
    reads entries.Values
  {
    entries[n] in entries[k].children <==> byId[n].parentId == k && k != ""
  }

  ghost predicate ChildrenFit(entries: map<string, PbNode>, byId: map<string, AXNode>)
    requires entries.Keys == byId.Keys
    reads entries.Values
  {
    forall k, n :: k in entries && n in entries ==> ChildFits(entries, byId, k, n)
  }

  /** Every child is the object of some node. */
  ghost predicate ChildrenKnown(entries: map<string, PbNode>)
    reads entries.Values
  {
    forall k :: k in entries ==> forall i :: 0 <= i < |entries[k].children| ==> entries[k].children[i] in entries.Values
  }

  lemma LinkedFits(entries: map<string, PbNode>, byId: map<string, AXNode>, order: seq<string>)
    requires EntriesOk(entries, byId) && Visits(order, byId) && Linked(entries, byId, order)
    ensures ChildrenFit(entries, byId) && ChildrenKnown(entries)
  {
    forall k, n | k in entries && n in entries ensures ChildFits(entries, byId, k, n) {
      KidsAre(order, byId, k);
      ChildIff(entries, k, Kids(order, byId, k), n);
    }
  }

  /** Distinct ids have distinct objects, so membership among the children is membership of the id. */
  lemma ChildIff(entries: map<string, PbNode>, k: string, kids: seq<string>, n: string)
    requires k in entries && n in entries && |entries[k].children| == |kids|
    requires forall i :: 0 <= i < |kids| ==> kids[i] in entries && entries[k].children[i] == entries[kids[i]]
    requires forall i, j :: i in entries && j in entries && i != j ==> entries[i] != entries[j]
    ensures entries[n] in entries[k].children <==> n in kids
  {
    if n in kids {
      var i :| 0 <= i < |kids| && kids[i] == n;
      assert entries[k].children[i] == entries[n];
    }
  }

  lemma ChainSnoc(byId: map<string, AXNode>, r: string, p: seq<string>, n: string)
    requires ParentChain(byId, r, p) && n in byId && byId[n].parentId == p[|p| - 1] && p[|p| - 1] != ""
    ensures ParentChain(byId, r, p + [n])
  {
    TakeDrop(p, [n]);
  }

  lemma PathSnoc(root: PbNode, os: seq<PbNode>, o: PbNode)
    requires ObjectPath(root, os) && o in os[|os| - 1].children
    ensures ObjectPath(root, os + [o])
  {
    TakeDrop(os, [o]);
  }

  lemma AlongSnoc(entries: map<string, PbNode>, p: seq<string>, os: seq<PbNode>, n: string)
    requires Along(entries, p, os) && n in entries
    ensures Along(entries, p + [n], os + [entries[n]])
  {
  }

  lemma AlongLast(entries: map<string, PbNode>, p: seq<string>, os: seq<PbNode>, n: string)
    requires os != [] && Along(entries, p, os[..|os| - 1]) && n in entries && entries[n] == os[|os| - 1]
    ensures Along(entries, p + [n], os)
  {
    AlongSnoc(entries, p, os[..|os| - 1], n);
    FrontLast(os);
  }

  /** Whatever is reached from a root object is the object of a node with an unbroken parent chain. */
  lemma {:induction false} ReachedHaveChains(entries: map<string, PbNode>, byId: map<string, AXNode>,
                                             r: string, os: seq<PbNode>) returns (p: seq<string>)
    requires entries.Keys == byId.Keys && ChildrenFit(entries, byId) && ChildrenKnown(entries)
    requires r in entries && ObjectPath(entries[r], os)
    ensures ParentChain(byId, r, p) && Along(entries, p, os)
    decreases |os|
  {
    if |os| <= 1 {
      p := [r];
    } else {
      var front := ReachedHaveChains(entries, byId, r, os[..|os| - 1]);
      p := OneDown(entries, byId, r, front, os);
    }
  }

  lemma OneDown(entries: map<string, PbNode>, byId: map<string, AXNode>, r: string,
                p: seq<string>, os: seq<PbNode>) returns (q: seq<string>)
    requires entries.Keys == byId.Keys && ChildrenFit(entries, byId) && ChildrenKnown(entries)
    requires |os| > 1 && ParentChain(byId, r, p) && Along(entries, p, os[..|os| - 1])
    requires os[|os| - 1] in os[|os| - 2].children
    ensures ParentChain(byId, r, q) && Along(entries, q, os)
  {
    var k := p[|p| - 1];
    assert entries[k] == os[|os| - 2];
    var n :| n in entries && entries[n] == os[|os| - 1];
    assert ChildFits(entries, byId, k, n);
    ChainSnoc(byId, r, p, n);
    AlongLast(entries, p, os, n);
    q := p + [n];
  }

  /** And each node with such a chain is reached. */
  lemma {:induction false} ChainsAreReached(entries: map<string, PbNode>, byId: map<string, AXNode>,
                                            r: string, p: seq<string>) returns (os: seq<PbNode>)
    requires entries.Keys == byId.Keys && ChildrenFit(entries, byId)
    requires r in entries && ParentChain(byId, r, p)
    ensures ObjectPath(entries[r], os) && Along(entries, p, os)
    decreases |p|
  {
    if |p| <= 1 {
      os := [entries[r]];
    } else {
      var up, n := p[..|p| - 1], p[|p| - 1];
      var front := ChainsAreReached(entries, byId, r, up);
      var k := up[|up| - 1];
      assert ChildFits(entries, byId, k, n) && front[|front| - 1] == entries[k];
      PathSnoc(entries[r], front, entries[n]);
      AlongSnoc(entries, up, front, n);
      FrontLast(p);
      os := front + [entries[n]];
    }
  }

  lemma {:induction false} AlongUnique(entries: map<string, PbNode>, byId: map<string, AXNode>,
                                       p: seq<string>, q: seq<string>, os: seq<PbNode>, os': seq<PbNode>)
    requires EntriesOk(entries, byId) && Along(entries, p, os) && Along(entries, q, os') && p != [] && q != []
    ensures os[|os| - 1] == os'[|os'| - 1] ==> p[|p| - 1] == q[|q| - 1]
    ensures p == q ==> os == os'
  {
  }

  /** No object below a root holds a child twice. */
  lemma NoChildTwice(entries: map<string, PbNode>, byId: map<string, AXNode>, order: seq<string>,
                     r: string, os: seq<PbNode>)
    requires EntriesOk(entries, byId) && Visits(order, byId) && Linked(entries, byId, order)
    requires r in entries && ObjectPath(entries[r], os)
    ensures forall i :: 0 <= i < |os| ==> Distinct(os[i].children)
  {
    LinkedFits(entries, byId, order);
    var p := ReachedHaveChains(entries, byId, r, os);
    forall i | 0 <= i < |os| ensures Distinct(os[i].children) {
      KidsAre(order, byId, p[i]);
    }
  }

  /** The returned object is a tree: no object is reached along two different paths, and none holds a child
      twice. */
  lemma ReturnedObjectIsATree(entries: map<string, PbNode>, byId: map<string, AXNode>, order: seq<string>,
                              r: string, os: seq<PbNode>, os': seq<PbNode>)
    requires EntriesOk(entries, byId) && Visits(order, byId) && Linked(entries, byId, order)
    requires r in entries && byId[r].parentId == ""
    requires ObjectPath(entries[r], os) && ObjectPath(entries[r], os') && os[|os| - 1] == os'[|os'| - 1]
    ensures os == os'
    ensures forall i :: 0 <= i < |os| ==> Distinct(os[i].children)
  {
    LinkedFits(entries, byId, order);
    var p := ReachedHaveChains(entries, byId, r, os);
    var q := ReachedHaveChains(entries, byId, r, os');
    AlongUnique(entries, byId, p, q, os, os');
    ChainsAreUnique(byId, r, p, q);
    NoChildTwice(entries, byId, order, r, os);
  }

  /** A node of the tree shows a ref exactly if it has a backend node, and the ref resolves to that. */
  lemma RefsResolve(nodes: seq<AXNode>, entries: map<string, PbNode>, k: string)
    requires EntriesOk(entries, ById(nodes)) && k in entries
    ensures var id, ref := ById(nodes)[k].backendId, entries[k].ref;
      && (id != 0 ==> ref == "e" + Decimal(id) && ref in Refs(nodes) && Refs(nodes)[ref] == id)
      && (id == 0 ==> ref == "")
  {
    ByIdExactly(nodes);
    RefsExactly(nodes);
  }

  /** What the objects of the returned tree show of the last non-ignored node of their id: ref, role, name,
      description and value, and its box if boxes were asked for and Chromium has one. */
  lemma TreeShows(nodes: seq<AXNode>, includeBounds: bool, boxOf: BoxModel, root: PbNode,
                  entries: map<string, PbNode>, order: seq<string>, i: nat)
    requires TreeOf(nodes, includeBounds, boxOf, root, entries, order) && IsLast(nodes, i)
    ensures var n := nodes[i];
      && n.id in entries
      && var o := entries[n.id];
         && (n.backendId != 0 ==> o.ref == "e" + Decimal(n.backendId)) && (n.backendId == 0 ==> o.ref == "")
         && (n.role.Some? ==> o.role == n.role.value) && (n.role.None? ==> o.role == "")
         && (n.name.Some? ==> o.name == n.name.value) && (n.name.None? ==> o.name == "")
         && (n.description.Some? && n.description.value != "" ==> o.description == n.description)
         && (n.description.None? || n.description.value == "" ==> o.description == None)
         && (n.value.Some? && n.value.value != "" ==> o.value == n.value)
         && (n.value.None? || n.value.value == "" ==> o.value == None)
         && (includeBounds && n.backendId != 0 ==> o.bounds == boxOf(n.backendId))
         && (!includeBounds || n.backendId == 0 ==> o.bounds == None)
  {
    ByIdExactly(nodes);
  }
}
