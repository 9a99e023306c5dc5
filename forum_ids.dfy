/**
 * The forum-id helpers of the abstract renderer: reading the `forums`
 * option (node ids and the four "special" placeholders that stand for the
 * forum being viewed, its parent, and either with all descendants), the
 * recursive child collection over the viewable node list, the cache-key
 * forum id, and the option list shown in the options editor.
 *
 * The host's node lists (all nodes, viewable nodes) are inputs.
 */
module ForumIds {

  import opened Wrappers

  /** The four placeholders the `forums` option may hold besides node ids. */
  datatype SpecialKind = Current | CurrentAndChildren | Parent | ParentAndChildren

  /** One selected entry of the `forums` option. */
  datatype ForumRef = Special(kind: SpecialKind) | Forum(id: int)

  /** The option value each placeholder is stored as; the phrase shown for it is `wf_` followed by it. */
  function SpecialValue(k: SpecialKind): string {
    match k
    case Current => "current_forum"
    case CurrentAndChildren => "current_forum_and_children"
    case Parent => "parent_forum"
    case ParentAndChildren => "parent_forum_and_children"
  }

  /** A node as the viewable node list gives it. */
  datatype Node = Node(nodeId: int, parentNodeId: int)

  /** The nodes a page may carry in its template parameters, in lookup order. */
  datatype TemplateNodes = TemplateNodes(
    forum: Option<Node>,
    category: Option<Node>,
    page: Option<Node>,
    widgetPage: Option<Node>)

  /** A parameter counts when it is present with a non-empty node id. */
  predicate Usable(n: Option<Node>) {
    n.Some? && n.value.nodeId != 0
  }

  /** The page's node: forum, else category, else page, else widget page, each only with a non-empty id. */
  function TemplateNode(p: TemplateNodes): (r: Option<Node>)
    ensures r.Some? ==> r.value.nodeId != 0
    ensures r.None? <==> !Usable(p.forum) && !Usable(p.category) && !Usable(p.page) && !Usable(p.widgetPage)
    ensures Usable(p.forum) ==> r == p.forum
    ensures !Usable(p.forum) && Usable(p.category) ==> r == p.category
    ensures !Usable(p.forum) && !Usable(p.category) && Usable(p.page) ==> r == p.page
    ensures !Usable(p.forum) && !Usable(p.category) && !Usable(p.page) && Usable(p.widgetPage) ==> r == p.widgetPage
  {
    if Usable(p.forum) then p.forum
    else if Usable(p.category) then p.category
    else if Usable(p.page) then p.page
    else if Usable(p.widgetPage) then p.widgetPage
    else None
  }

  // ---------------------------------------------------------------------
  // Special detection and the cache-key forum id (WidgetRenderer.php:181-236)

  /**
   * `_helperDetectSpecialForums`: false for a non-array (`None`), else
   * whether any entry is a placeholder.
   */
  function DetectSpecialForums(forumIds: Option<seq<ForumRef>>): (r: bool)
    ensures r <==> forumIds.Some? && exists i :: 0 <= i < |forumIds.value| && forumIds.value[i].Special?
  {
    match forumIds
    case None => false
    case Some(ids) => AnySpecial(ids)
  }

  function AnySpecial(ids: seq<ForumRef>): (r: bool)
    ensures r <==> exists i :: 0 <= i < |ids| && ids[i].Special?
  {
    if ids == [] then false
    else if ids[0].Special? then true
    else
      var r := AnySpecial(ids[1..]);
      assert forall i :: 0 < i < |ids| ==> ids[i] == ids[1..][i - 1];
      r
  }

  /**
   * `_helperGetForumIdForCache`: the page's node id when the option is not
   * empty and the page has a node, else the empty string (`None`).
   */
  function ForumIdForCache(forumsOption: seq<ForumRef>, p: TemplateNodes): (r: Option<int>)
    ensures r.Some? <==> forumsOption != [] && TemplateNode(p).Some?
    ensures r.Some? ==> r.value == TemplateNode(p).value.nodeId && r.value != 0
  {
    if forumsOption != [] && TemplateNode(p).Some? then Some(TemplateNode(p).value.nodeId) else None
  }

  // ---------------------------------------------------------------------
  // Child collection (WidgetRenderer.php:330-338)

  /** The node ids of a list, in order. */
  function NodeIds(nodes: seq<Node>): (r: seq<int>)
    ensures |r| == |nodes| && forall j :: 0 <= j < |nodes| ==> r[j] == nodes[j].nodeId
  {
    if nodes == [] then [] else [nodes[0].nodeId] + NodeIds(nodes[1..])
  }

  /**
   * What `_helperMergeChildForumIds` appends for `parent`: walking the list
   * in order, each child's id followed by everything appended for that
   * child. The source recurses without bound; `fuel` bounds the depth.
   */
  function ChildForumIds(nodes: seq<Node>, parent: int, fuel: nat): seq<int>
    decreases fuel, 0, 0
  {
    if fuel == 0 then [] else ScanChildren(nodes, 0, parent, fuel - 1)
  }

  /** The part of `ChildForumIds` contributed by the nodes from index `i` on. */
  function ScanChildren(nodes: seq<Node>, i: nat, parent: int, fuel: nat): seq<int>
    requires i <= |nodes|
    decreases fuel, 1, |nodes| - i
  {
    if i == |nodes| then []
    else
      (if nodes[i].parentNodeId == parent then [nodes[i].nodeId] + ChildForumIds(nodes, nodes[i].nodeId, fuel) else [])
      + ScanChildren(nodes, i + 1, parent, fuel)
  }

  /**
   * `x` is the id of a child of `parent` in the list, or a descendant of
   * such a child, at most `depth` levels below `parent`.
   */
  predicate Descends(nodes: seq<Node>, x: int, parent: int, depth: nat)
    decreases depth
  {
    depth > 0 &&
    exists j :: 0 <= j < |nodes| && nodes[j].parentNodeId == parent &&
                (nodes[j].nodeId == x || Descends(nodes, x, nodes[j].nodeId, depth - 1))
  }

  /** Only ids of listed nodes are ever collected, and each is a descendant of `parent` within the depth bound. */
  lemma {:induction false} ChildForumIdsAreNodeIds(nodes: seq<Node>, parent: int, fuel: nat, x: int)
    requires x in ChildForumIds(nodes, parent, fuel)
    ensures x in NodeIds(nodes)
    ensures Descends(nodes, x, parent, fuel)
    decreases fuel, 0, 0
  {
    ScanChildrenAreNodeIds(nodes, 0, parent, fuel - 1, x);
  }

  lemma {:induction false} ScanChildrenAreNodeIds(nodes: seq<Node>, i: nat, parent: int, fuel: nat, x: int)
    requires i <= |nodes| && x in ScanChildren(nodes, i, parent, fuel)
    ensures x in NodeIds(nodes)
    ensures Descends(nodes, x, parent, fuel + 1)
    decreases fuel, 1, |nodes| - i
  {
    var rest := ScanChildren(nodes, i + 1, parent, fuel);
    if x in rest {
      ScanChildrenAreNodeIds(nodes, i + 1, parent, fuel, x);
    } else if x == nodes[i].nodeId {
      assert NodeIds(nodes)[i] == x;
      assert nodes[i].parentNodeId == parent;
    } else {
      ChildForumIdsAreNodeIds(nodes, nodes[i].nodeId, fuel, x);
      assert nodes[i].parentNodeId == parent;
    }
  }

  /** A direct child, and everything collected for it, is collected from index `i` on when the child sits at `j >= i`. */
  lemma {:induction false} ScanChildrenIncludes(nodes: seq<Node>, i: nat, parent: int, fuel: nat, j: nat, x: int)
    requires i <= j < |nodes| && nodes[j].parentNodeId == parent
    requires x == nodes[j].nodeId || x in ChildForumIds(nodes, nodes[j].nodeId, fuel)
    ensures x in ScanChildren(nodes, i, parent, fuel)
    decreases j - i
  {
    if i < j {
      ScanChildrenIncludes(nodes, i + 1, parent, fuel, j, x);
    }
  }

  /** Every direct child of `parent` is collected, and so is everything collected for that child one level down. */
  lemma ChildForumIdsClosed(nodes: seq<Node>, parent: int, fuel: nat, j: nat, x: int)
    requires fuel > 0 && j < |nodes| && nodes[j].parentNodeId == parent
    requires x == nodes[j].nodeId || x in ChildForumIds(nodes, nodes[j].nodeId, fuel - 1)
    ensures x in ChildForumIds(nodes, parent, fuel)
  {
    ScanChildrenIncludes(nodes, 0, parent, fuel - 1, j, x);
  }

  /** Every descendant within the depth bound is collected. */
  lemma {:induction false} DescendantsAreCollected(nodes: seq<Node>, x: int, parent: int, depth: nat)
    requires Descends(nodes, x, parent, depth)
    ensures x in ChildForumIds(nodes, parent, depth)
    decreases depth
  {
    var j :| 0 <= j < |nodes| && nodes[j].parentNodeId == parent &&
      (nodes[j].nodeId == x || Descends(nodes, x, nodes[j].nodeId, depth - 1));
    if nodes[j].nodeId != x {
      DescendantsAreCollected(nodes, x, nodes[j].nodeId, depth - 1);
    }
    ChildForumIdsClosed(nodes, parent, depth, j, x);
  }

  /** The child collection holds exactly the descendants of `parent` within the depth bound. */
  lemma ChildForumIdsAreDescendants(nodes: seq<Node>, parent: int, depth: nat, x: int)
    ensures x in ChildForumIds(nodes, parent, depth) <==> Descends(nodes, x, parent, depth)
  {
    if x in ChildForumIds(nodes, parent, depth) {
      ChildForumIdsAreNodeIds(nodes, parent, depth, x);
    }
    if Descends(nodes, x, parent, depth) {
      DescendantsAreCollected(nodes, x, parent, depth);
    }
  }

  /**
   * `_helperMergeChildForumIds`: appends to `acc` what is collected for
   * `parent`, looping over the nodes and recursing into each child.
   */
  method MergeChildForumIds(acc: seq<int>, nodes: seq<Node>, parent: int, fuel: nat) returns (r: seq<int>)
    ensures r == acc + ChildForumIds(nodes, parent, fuel)
    decreases fuel
  {
    r := acc;
    if fuel == 0 {
      return;
    }
    var i := 0;
    while i < |nodes|
      invariant 0 <= i <= |nodes|
      invariant r + ScanChildren(nodes, i, parent, fuel - 1) == acc + ScanChildren(nodes, 0, parent, fuel - 1)
    {
      var node := nodes[i];
      var before := r;
      if node.parentNodeId == parent {
        r := r + [node.nodeId];
        r := MergeChildForumIds(r, nodes, node.nodeId, fuel - 1);
        assert r == before + ([node.nodeId] + ChildForumIds(nodes, node.nodeId, fuel - 1));
      }
      assert before + ScanChildren(nodes, i, parent, fuel - 1) == r + ScanChildren(nodes, i + 1, parent, fuel - 1);
      i := i + 1;
    }
  }

  // ---------------------------------------------------------------------
  // Sorting and de-duplication (PHP `sort` and `array_unique`)

  predicate Sorted(s: seq<int>) {
    forall i, j :: 0 <= i < j < |s| ==> s[i] <= s[j]
  }

  predicate NoDuplicates(s: seq<int>) {
    forall x :: x in s ==> multiset(s)[x] == 1
  }

  function Insert(x: int, s: seq<int>): (r: seq<int>)
    requires Sorted(s)
    ensures Sorted(r) && multiset(r) == multiset(s) + multiset{x}
  {
    if s == [] then [x]
    else if x <= s[0] then [x] + s
    else
      var t := Insert(x, s[1..]);
      assert s == [s[0]] + s[1..];
      SortedCons(s[0], s[1..], x, t);
      [s[0]] + t
  }

  /** Putting the head of a sorted sequence back in front of its reordered tail, with a larger value added, keeps it sorted. */
  lemma SortedCons(a: int, tail: seq<int>, x: int, t: seq<int>)
    requires Sorted([a] + tail) && a < x
    requires Sorted(t) && multiset(t) == multiset(tail) + multiset{x}
    ensures Sorted([a] + t)
  {
    forall j | 0 <= j < |t| ensures a <= t[j] {
      assert t[j] in multiset(t);
      if t[j] != x {
        assert t[j] in tail;
        var i :| 0 <= i < |tail| && tail[i] == t[j];
        assert ([a] + tail)[0] == a && ([a] + tail)[i + 1] == t[j];
      }
    }
    forall i, j | 0 <= i < j < |[a] + t| ensures ([a] + t)[i] <= ([a] + t)[j] {
      if i > 0 {
        assert ([a] + t)[i] == t[i - 1] && ([a] + t)[j] == t[j - 1];
      }
    }
  }

  /** PHP `sort` on integers: ascending, the same elements. */
  function Sort(s: seq<int>): (r: seq<int>)
    ensures Sorted(r) && multiset(r) == multiset(s)
  {
    if s == [] then []
    else
      var r := Insert(s[0], Sort(s[1..]));
      assert s == [s[0]] + s[1..];
      r
  }

  /** PHP `array_unique` followed by re-indexing: the first occurrence of each value survives, in order. */
  function Unique(s: seq<int>): (r: seq<int>)
    ensures NoDuplicates(r)
    ensures forall x :: x in r <==> x in s
  {
    if s == [] then []
    else
      var d := Unique(s[..|s| - 1]);
      var last := s[|s| - 1];
      assert s == s[..|s| - 1] + [last];
      if last in d then d else d + [last]
  }

  // ---------------------------------------------------------------------
  // Reading the `forums` option (WidgetRenderer.php:252-320)

  /** The ids a placeholder adds for the page's node; nothing when the page has no node. */
  function SpecialIds(k: SpecialKind, node: Option<Node>, viewable: seq<Node>, fuel: nat): seq<int> {
    if node.None? then []
    else
      match k
      case Current => [node.value.nodeId]
      case CurrentAndChildren => [node.value.nodeId] + ChildForumIds(viewable, node.value.nodeId, fuel)
      case Parent => [node.value.parentNodeId]
      case ParentAndChildren => [node.value.parentNodeId] + ChildForumIds(viewable, node.value.parentNodeId, fuel)
  }

  /** The plain node ids of the option, in order, placeholders removed. */
  function PlainIds(option: seq<ForumRef>): (r: seq<int>)
    ensures forall x :: x in r <==> Forum(x) in option
  {
    if option == [] then []
    else
      var rest := PlainIds(option[1..]);
      assert option == [option[0]] + option[1..];
      if option[0].Forum? then [option[0].id] + rest else rest
  }

  /** Everything the placeholders of the option add, in option order. */
  function AllSpecialIds(option: seq<ForumRef>, node: Option<Node>, viewable: seq<Node>, fuel: nat): seq<int> {
    if option == [] then []
    else
      (if option[0].Special? then SpecialIds(option[0].kind, node, viewable, fuel) else [])
      + AllSpecialIds(option[1..], node, viewable, fuel)
  }

  /**
   * The result of `_helperGetForumIdsFromOption`: every viewable node for an
   * empty option; otherwise the plain ids, merged with what the
   * placeholders add and de-duplicated only when they added anything;
   * sorted in every case.
   */
  function ForumIdsFromOption(option: seq<ForumRef>, p: TemplateNodes, viewable: seq<Node>, fuel: nat): seq<int> {
    if option == [] then Sort(NodeIds(viewable))
    else
      var special := AllSpecialIds(option, TemplateNode(p), viewable, fuel);
      if special != [] then Sort(Unique(PlainIds(option) + special)) else Sort(PlainIds(option))
  }

  /** One arm of the placeholder switch: the page node's id or parent id, then its descendants for the `_and_children` kinds. */
  method AppendSpecialIds(special: seq<int>, k: SpecialKind, node: Node, viewable: seq<Node>, fuel: nat) returns (r: seq<int>)
    ensures r == special + SpecialIds(k, Some(node), viewable, fuel)
  {
    match k {
      case Current =>
        r := special + [node.nodeId];
      case CurrentAndChildren =>
        r := special + [node.nodeId];
        r := MergeChildForumIds(r, viewable, node.nodeId, fuel);
      case Parent =>
        r := special + [node.parentNodeId];
      case ParentAndChildren =>
        r := special + [node.parentNodeId];
        r := MergeChildForumIds(r, viewable, node.parentNodeId, fuel);
    }
  }

  lemma AppendAssoc(a: seq<int>, b: seq<int>, c: seq<int>)
    ensures a + (b + c) == (a + b) + c
  {
  }

  /** Peeling one entry off the unvisited part of the option. */
  lemma OptionStep(option: seq<ForumRef>, i: nat, node: Option<Node>, viewable: seq<Node>, fuel: nat)
    requires i < |option|
    ensures PlainIds(option[i..]) == (if option[i].Forum? then [option[i].id] else []) + PlainIds(option[i + 1..])
    ensures AllSpecialIds(option[i..], node, viewable, fuel)
      == (if option[i].Special? then SpecialIds(option[i].kind, node, viewable, fuel) else []) + AllSpecialIds(option[i + 1..], node, viewable, fuel)
  {
    assert option[i..][1..] == option[i + 1..];
  }

  /**
   * `_helperGetForumIdsFromOption`: walks the option, moving each
   * placeholder's contribution (with the recursive child collection) into
   * a separate list and dropping the placeholder, then merges and sorts.
   */
  method GetForumIdsFromOption(option: seq<ForumRef>, p: TemplateNodes, viewable: seq<Node>, fuel: nat)
    returns (forumIds: seq<int>)
    ensures forumIds == ForumIdsFromOption(option, p, viewable, fuel)
  {
    if option == [] {
      forumIds := Sort(NodeIds(viewable));
      return;
    }
    var templateNode := TemplateNode(p);
    var plain: seq<int> := [];
    var special: seq<int> := [];
    var i := 0;
    while i < |option|
      invariant 0 <= i <= |option|
      invariant plain + PlainIds(option[i..]) == PlainIds(option)
      invariant special + AllSpecialIds(option[i..], templateNode, viewable, fuel) == AllSpecialIds(option, templateNode, viewable, fuel)
    {
      OptionStep(option, i, templateNode, viewable, fuel);
      var entry := option[i];
      ghost var plainBefore := plain;
      ghost var specialBefore := special;
      match entry {
        case Forum(id) =>
          plain := plain + [id];
        case Special(k) =>
          if templateNode.Some? {
            special := AppendSpecialIds(special, k, templateNode.value, viewable, fuel);
          }
      }
      ghost var addedPlain := if entry.Forum? then [entry.id] else [];
      ghost var addedSpecial := if entry.Special? then SpecialIds(entry.kind, templateNode, viewable, fuel) else [];
      assert plain == plainBefore + addedPlain;
      assert special == specialBefore + addedSpecial;
      AppendAssoc(plainBefore, addedPlain, PlainIds(option[i + 1..]));
      AppendAssoc(specialBefore, addedSpecial, AllSpecialIds(option[i + 1..], templateNode, viewable, fuel));
      i := i + 1;
    }
    assert option[|option|..] == [];
    assert plain == PlainIds(option) && special == AllSpecialIds(option, templateNode, viewable, fuel);
    if special != [] {
      forumIds := Sort(Unique(plain + special));
    } else {
      forumIds := Sort(plain);
    }
  }

  /** The result is always sorted. */
  lemma ForumIdsAreSorted(option: seq<ForumRef>, p: TemplateNodes, viewable: seq<Node>, fuel: nat)
    ensures Sorted(ForumIdsFromOption(option, p, viewable, fuel))
  {
  }

  /** Without placeholder contributions the result is exactly the plain ids, duplicates kept. */
  lemma PlainOptionIsSortedAsGiven(option: seq<ForumRef>, p: TemplateNodes, viewable: seq<Node>, fuel: nat)
    requires option != [] && !AnySpecial(option)
    ensures multiset(ForumIdsFromOption(option, p, viewable, fuel)) == multiset(PlainIds(option))
  {
    NoSpecialAddsNothing(option, TemplateNode(p), viewable, fuel);
  }

  lemma {:induction false} NoSpecialAddsNothing(option: seq<ForumRef>, node: Option<Node>, viewable: seq<Node>, fuel: nat)
    requires !AnySpecial(option)
    ensures AllSpecialIds(option, node, viewable, fuel) == []
  {
    if option != [] {
      assert !option[0].Special?;
      assert !AnySpecial(option[1..]);
      NoSpecialAddsNothing(option[1..], node, viewable, fuel);
    }
  }

  /** Once a placeholder contributes, the result holds each id once. */
  lemma SpecialContributionDeduplicates(option: seq<ForumRef>, p: TemplateNodes, viewable: seq<Node>, fuel: nat)
    requires option != [] && AllSpecialIds(option, TemplateNode(p), viewable, fuel) != []
    ensures NoDuplicates(ForumIdsFromOption(option, p, viewable, fuel))
  {
  }

  /** A placeholder with a page node present puts that node's id (current) or parent id (parent) in the result. */
  lemma {:induction false} SpecialAddsTemplateNode(option: seq<ForumRef>, p: TemplateNodes, viewable: seq<Node>, fuel: nat, i: nat)
    requires i < |option| && option[i].Special? && TemplateNode(p).Some?
    ensures var n := TemplateNode(p).value;
      var want := if option[i].kind == Current || option[i].kind == CurrentAndChildren then n.nodeId else n.parentNodeId;
      want in ForumIdsFromOption(option, p, viewable, fuel)
  {
    var n := TemplateNode(p).value;
    var want := if option[i].kind == Current || option[i].kind == CurrentAndChildren then n.nodeId else n.parentNodeId;
    var special := AllSpecialIds(option, TemplateNode(p), viewable, fuel);
    SpecialIdsCollected(option, TemplateNode(p), viewable, fuel, i, want);
    var r := Sort(Unique(PlainIds(option) + special));
    assert want in PlainIds(option) + special;
    assert want in multiset(r);
  }

  /** The node a placeholder is about: the page's node for the `current` kinds, its parent for the `parent` kinds. */
  function SpecialBase(k: SpecialKind, n: Node): int {
    if k == Current || k == CurrentAndChildren then n.nodeId else n.parentNodeId
  }

  /** The `_and_children` kinds. */
  predicate WithChildren(k: SpecialKind) {
    k == CurrentAndChildren || k == ParentAndChildren
  }

  /** Anything either `_and_children` placeholder collects below its node reaches the result. */
  lemma {:induction false} ChildPlaceholderAddsDescendants(option: seq<ForumRef>, p: TemplateNodes, viewable: seq<Node>, fuel: nat, i: nat, x: int)
    requires i < |option| && TemplateNode(p).Some?
    requires option[i].Special? && WithChildren(option[i].kind)
    requires x in ChildForumIds(viewable, SpecialBase(option[i].kind, TemplateNode(p).value), fuel)
    ensures x in ForumIdsFromOption(option, p, viewable, fuel)
  {
    var special := AllSpecialIds(option, TemplateNode(p), viewable, fuel);
    SpecialIdsCollected(option, TemplateNode(p), viewable, fuel, i, x);
    var r := Sort(Unique(PlainIds(option) + special));
    assert x in PlainIds(option) + special;
    assert x in multiset(r);
  }

  /** What one placeholder contributes for the page's node `n`: its base id, and for the `_and_children` kinds every descendant of it. */
  predicate Contributes(k: SpecialKind, n: Node, viewable: seq<Node>, fuel: nat, x: int) {
    x == SpecialBase(k, n) || (WithChildren(k) && Descends(viewable, x, SpecialBase(k, n), fuel))
  }

  /** A placeholder adds exactly its base id and, for the `_and_children` kinds, the descendants within the bound. */
  lemma SpecialIdsMembers(k: SpecialKind, n: Node, viewable: seq<Node>, fuel: nat, x: int)
    ensures x in SpecialIds(k, Some(n), viewable, fuel) <==> Contributes(k, n, viewable, fuel, x)
  {
    ChildForumIdsAreDescendants(viewable, SpecialBase(k, n), fuel, x);
  }

  /** The placeholders of the option add exactly what some placeholder among them adds. */
  lemma {:induction false} AllSpecialIdsMembers(option: seq<ForumRef>, node: Option<Node>, viewable: seq<Node>, fuel: nat, x: int)
    ensures x in AllSpecialIds(option, node, viewable, fuel) <==>
      exists i :: 0 <= i < |option| && option[i].Special? && x in SpecialIds(option[i].kind, node, viewable, fuel)
  {
    if option != [] {
      AllSpecialIdsMembers(option[1..], node, viewable, fuel, x);
      if exists i :: 0 <= i < |option| && option[i].Special? && x in SpecialIds(option[i].kind, node, viewable, fuel) {
        var i :| 0 <= i < |option| && option[i].Special? && x in SpecialIds(option[i].kind, node, viewable, fuel);
        if i > 0 {
          assert option[1..][i - 1] == option[i];
        }
      }
      if x in AllSpecialIds(option[1..], node, viewable, fuel) {
        var i :| 0 <= i < |option[1..]| && option[1..][i].Special? && x in SpecialIds(option[1..][i].kind, node, viewable, fuel);
        assert option[i + 1] == option[1..][i];
      }
    }
  }

  /**
   * The result holds nothing but what the option asks for: every viewable
   * node for an empty option; otherwise the plain ids of the option and
   * what its placeholders contribute for the page's node.
   */
  lemma ForumIdsFromOptionMembers(option: seq<ForumRef>, p: TemplateNodes, viewable: seq<Node>, fuel: nat, x: int)
    ensures x in ForumIdsFromOption(option, p, viewable, fuel) <==>
      (if option == [] then x in NodeIds(viewable)
       else
         Forum(x) in option
         || (TemplateNode(p).Some? &&
             exists i :: 0 <= i < |option| && option[i].Special? && Contributes(option[i].kind, TemplateNode(p).value, viewable, fuel, x)))
  {
    var r := ForumIdsFromOption(option, p, viewable, fuel);
    if option == [] {
      assert x in r <==> x in multiset(NodeIds(viewable));
    } else {
      var node := TemplateNode(p);
      var special := AllSpecialIds(option, node, viewable, fuel);
      AllSpecialIdsMembers(option, node, viewable, fuel, x);
      if special != [] {
        assert x in r <==> x in multiset(Unique(PlainIds(option) + special));
      } else {
        assert x in r <==> x in multiset(PlainIds(option));
      }
      assert x in r <==> Forum(x) in option || x in special;
      if node.Some? {
        forall i | 0 <= i < |option| && option[i].Special?
          ensures x in SpecialIds(option[i].kind, node, viewable, fuel) <==> Contributes(option[i].kind, node.value, viewable, fuel, x)
        {
          SpecialIdsMembers(option[i].kind, node.value, viewable, fuel, x);
        }
      }
    }
  }

  lemma {:induction false} SpecialIdsCollected(option: seq<ForumRef>, node: Option<Node>, viewable: seq<Node>, fuel: nat, i: nat, x: int)
    requires i < |option| && option[i].Special? && x in SpecialIds(option[i].kind, node, viewable, fuel)
    ensures x in AllSpecialIds(option, node, viewable, fuel)
    decreases i
  {
    if i > 0 {
      SpecialIdsCollected(option[1..], node, viewable, fuel, i - 1, x);
    }
  }

  /** Every plain id of a non-empty option survives into the result. */
  lemma PlainIdsSurvive(option: seq<ForumRef>, p: TemplateNodes, viewable: seq<Node>, fuel: nat, x: int)
    requires Forum(x) in option
    ensures x in ForumIdsFromOption(option, p, viewable, fuel)
  {
    var special := AllSpecialIds(option, TemplateNode(p), viewable, fuel);
    assert x in PlainIds(option);
    if special != [] {
      assert x in PlainIds(option) + special;
      assert x in multiset(Sort(Unique(PlainIds(option) + special)));
    } else {
      assert x in multiset(Sort(PlainIds(option)));
    }
  }

  // ---------------------------------------------------------------------
  // The options-editor list (WidgetRenderer.php:129-173)

  /** A node as the full node list gives it. */
  datatype NodeRow = NodeRow(nodeId: int, nodeTypeId: string, depth: nat, title: string)

  /** A choice label: the placeholder's phrase or literal text. */
  datatype Label = SpecialPhrase(phrase: string) | Plain(text: string)

  datatype Choice = Choice(value: ForumRef, caption: Label, selected: bool)

  /** Node types never offered: categories, link forums, pages and widget pages. */
  predicate Listed(n: NodeRow) {
    n.nodeTypeId !in {"Category", "LinkForum", "Page", "WF_WidgetPage"}
  }

  /** `str_repeat('--', depth)`. */
  function Dashes(depth: nat): (r: string)
    ensures |r| == 2 * depth && forall i :: 0 <= i < |r| ==> r[i] == '-'
  {
    if depth == 0 then "" else "--" + Dashes(depth - 1)
  }

  /** The label of a node: two dashes per level of depth, a space, the title. */
  function NodeLabel(n: NodeRow): (r: string)
    ensures |r| == 2 * n.depth + 1 + |n.title|
    ensures r[2 * n.depth] == ' ' && r[2 * n.depth + 1..] == n.title
  {
    Dashes(n.depth) + " " + n.title
  }

  const SpecialOrder := [Current, CurrentAndChildren, Parent, ParentAndChildren]

  /** The choices a node list offers, in node order. */
  function NodeChoices(nodes: seq<NodeRow>, selected: seq<ForumRef>): seq<Choice> {
    if nodes == [] then []
    else
      (if Listed(nodes[0]) then [NodeChoice(nodes[0], selected)] else [])
      + NodeChoices(nodes[1..], selected)
  }

  function NodeChoice(n: NodeRow, selected: seq<ForumRef>): Choice {
    Choice(Forum(n.nodeId), Plain(NodeLabel(n)), Forum(n.nodeId) in selected)
  }

  /** Every node choice is a listed node, labelled by its depth and title, selected iff its id was selected. */
  lemma {:induction false} NodeChoicesSound(nodes: seq<NodeRow>, selected: seq<ForumRef>, c: Choice)
    requires c in NodeChoices(nodes, selected)
    ensures exists n :: n in nodes && Listed(n) && c == NodeChoice(n, selected)
    ensures c.value.Forum? && c.selected == (c.value in selected)
  {
    if c !in (if Listed(nodes[0]) then [NodeChoice(nodes[0], selected)] else []) {
      NodeChoicesSound(nodes[1..], selected, c);
      var n :| n in nodes[1..] && Listed(n) && c == NodeChoice(n, selected);
      assert n in nodes;
    }
  }

  /** Every listed node is offered; categories, link forums, pages and widget pages are not. */
  lemma {:induction false} NodeChoicesComplete(nodes: seq<NodeRow>, selected: seq<ForumRef>, n: NodeRow)
    requires n in nodes && Listed(n)
    ensures NodeChoice(n, selected) in NodeChoices(nodes, selected)
  {
    if n != nodes[0] {
      NodeChoicesComplete(nodes[1..], selected, n);
    }
  }

  /** The placeholder choices, in their fixed order, each with its `wf_` phrase. */
  function SpecialChoices(selected: seq<ForumRef>): (r: seq<Choice>)
    ensures |r| == 4 && forall k :: 0 <= k < 4 ==> r[k].value == Special(SpecialOrder[k])
    ensures forall k :: 0 <= k < 4 ==>
      r[k].caption == SpecialPhrase("wf_" + SpecialValue(SpecialOrder[k])) && r[k].selected == (r[k].value in selected)
  {
    seq(4, k requires 0 <= k < 4 => SpecialChoice(SpecialOrder[k], selected))
  }

  function SpecialChoice(k: SpecialKind, selected: seq<ForumRef>): Choice {
    Choice(Special(k), SpecialPhrase("wf_" + SpecialValue(k)), Special(k) in selected)
  }

  /**
   * `_helperPrepareForumsOptionSource`: the four placeholders first when
   * asked for, then one choice per listed node; each marked selected when
   * its value is among `selected`.
   */
  method PrepareForumsOptionSource(nodes: seq<NodeRow>, selected: seq<ForumRef>, useSpecialForums: bool)
    returns (forums: seq<Choice>)
    ensures forums == (if useSpecialForums then SpecialChoices(selected) else []) + NodeChoices(nodes, selected)
  {
    forums := [];
    if useSpecialForums {
      for k := 0 to 4
        invariant forums == SpecialChoices(selected)[..k]
      {
        var specialId := SpecialOrder[k];
        forums := forums + [SpecialChoice(specialId, selected)];
      }
      assert SpecialChoices(selected)[..4] == SpecialChoices(selected);
    }
    ghost var specials := forums;
    for i := 0 to |nodes|
      invariant forums + NodeChoices(nodes[i..], selected) == specials + NodeChoices(nodes, selected)
    {
      assert nodes[i..][1..] == nodes[i + 1..];
      var node := nodes[i];
      if !Listed(node) {
        continue;
      }
      forums := forums + [NodeChoice(node, selected)];
    }
    assert nodes[|nodes|..] == [] && NodeChoices([], selected) == [];
    assert forums == forums + [];
  }
}
