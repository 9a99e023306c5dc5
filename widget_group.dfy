/**
 * The group renderer: a widget whose children are widgets. It picks a
 * layout, collapses a random group to one child, defers later tabs to
 * ajax loads, renders the rest with the group's id in their parameters,
 * keeps the children that produced something, and wraps them with the
 * wrapper template's parameters.
 *
 * The renderers of the children and the core's `renderWidget` are host
 * code; they come in as the functions of `Hosts`. `array_rand`'s choice
 * comes in as the index `pick`.
 */
module WidgetGroup {

  import opened Wrappers
  import opened PhpValues
  import opened RendererConfig
  import opened WidgetRenderer

  /** A child widget: its renderer class, the widget, and the `_runtime` html and ajax URL the group writes into it. */
  datatype Child = Child(className: string, widget: Widget, html: Markup, ajaxLoadUrl: Markup)

  /** The host code a group calls: which classes have a renderer, their configuration, and the core's `renderWidget`. */
  datatype Hosts = Hosts(
    hasRenderer: string -> bool,
    configurationOf: string -> Configuration,
    renderWidget: (Widget, string, Params) -> Markup)

  datatype Layout = Rows | Columns | Random | Tabs

  /** Lines 43-52: `columns`, `random` and `tabs` are taken as they are; anything else, or nothing, is `rows`. */
  function LayoutOf(options: seq<Entry>): (r: Layout)
    ensures r == Columns <==> Get(options, LayoutKey) == Str("columns")
    ensures r == Random <==> Get(options, LayoutKey) == Str("random")
    ensures r == Tabs <==> Get(options, LayoutKey) == Str("tabs")
  {
    match Get(options, LayoutKey)
    case Str(s) =>
      if s == "columns" then Columns
      else if s == "random" then Random
      else if s == "tabs" then Tabs
      else Rows
    case _ => Rows
  }

  /** Lines 54-59: the positions rendered, in order: the one picked at random, or all of them. */
  function Selected(n: nat, layout: Layout, editor: bool, pick: nat): (r: seq<nat>)
    requires n == 0 || pick < n
    ensures forall j :: 0 <= j < |r| ==> r[j] < n
    ensures !editor && layout == Random && n > 0 ==> r == [pick]
    ensures editor || layout != Random ==> |r| == n && forall j :: 0 <= j < n ==> r[j] == j
  {
    if !editor && layout == Random && n > 0 then [pick]
    else seq(n, j requires 0 <= j < n => j)
  }

  /** The renderer of this class exists and may load its widget by ajax. */
  predicate CanAjaxLoad(hosts: Hosts, className: string) {
    hosts.hasRenderer(className) && hosts.configurationOf(className).canAjaxLoad
  }

  /** Lines 71-75: a tab is deferred when the editor is off, some tab is already kept, and its renderer can ajax-load. */
  predicate Defers(hosts: Hosts, child: Child, layout: Layout, editor: bool, keptSoFar: nat) {
    !editor && keptSoFar > 0 && layout == Tabs && CanAjaxLoad(hosts, child.className)
  }

  /** Lines 66-82: what a visit writes into a child: its ajax URL as html when deferred, its rendered html otherwise. */
  function Visit(hosts: Hosts, child: Child, position: string, params: Params, groupId: int,
                 layout: Layout, editor: bool, keptSoFar: nat): Child
  {
    if Defers(hosts, child, layout, editor, keptSoFar) then
      var url := AjaxLink(child.widget.widgetId, AjaxLoadParams(child.widget, params));
      child.(html := url, ajaxLoadUrl := url)
    else
      child.(html := hosts.renderWidget(child.widget, position, params.(parentGroupId := Some(groupId))),
             ajaxLoadUrl := Text(""))
  }

  /** Lines 84-88: a visited child is kept when its html is not empty, or always in the layout editor. */
  predicate Kept(child: Child, editor: bool) {
    !EmptyMarkup(child.html) || editor
  }

  /** The children and the ids kept after visiting the first `k` positions of `order`. */
  datatype Progress = Progress(children: seq<Child>, kept: seq<int>)

  function Walk(hosts: Hosts, children: seq<Child>, order: seq<nat>, k: nat, position: string, params: Params,
                groupId: int, layout: Layout, editor: bool): (r: Progress)
    requires k <= |order|
    requires forall j :: 0 <= j < |order| ==> order[j] < |children|
    ensures |r.children| == |children|
  {
    if k == 0 then Progress(children, [])
    else
      var p := Walk(hosts, children, order, k - 1, position, params, groupId, layout, editor);
      var i := order[k - 1];
      var c := Visit(hosts, p.children[i], position, params, groupId, layout, editor, |p.kept|);
      Progress(p.children[i := c], p.kept + (if Kept(c, editor) then [c.widget.widgetId] else []))
  }

  predicate Distinct(order: seq<nat>) {
    forall a, b :: 0 <= a < b < |order| ==> order[a] != order[b]
  }

  /** What the wrapper template receives. `saveParams` and `conditionalParams` are set only in the layout editor. */
  datatype Wrapper = Wrapper(
    templateName: string,
    classSection: string,
    saveParams: Option<seq<Entry>>,
    conditionalParams: Option<seq<Entry>>,
    groupId: int,
    widgetIds: seq<int>)

  datatype GroupOutput = Blank | Wrapped(wrapper: Wrapper)

  const SidebarClasses := "widget-container act-as-sidebar sidebar"

  /** Lines 137-151: the sidebar classes for a hook, then the section classes for a bordered top-level group. */
  function ClassSection(isHook: bool, groupBorder: bool, parentGroupId: int): string {
    (if isHook then SidebarClasses else "")
    + (if groupBorder && parentGroupId == 0 then (if isHook then " section sectionMain" else " section") else "")
  }

  /** Lines 122-133: the editor saves the group id, and the widget page id when the conditional names that page. */
  function SaveParams(groupWidgetId: int, widgetPageId: int, conditional: seq<Entry>): seq<Entry> {
    [Entry("group_id", Int(groupWidgetId))]
    + (if widgetPageId != 0 && !EmptyAt(conditional, "widgetPage") then [Entry("widget_page_id", Int(widgetPageId))] else [])
  }

  /** Lines 128-133: the widget page condition moves into the save parameters, so it is dropped from the conditional. */
  function ConditionalParams(widgetPageId: int, conditional: seq<Entry>): seq<Entry> {
    if widgetPageId != 0 && !EmptyAt(conditional, "widgetPage") then Remove(conditional, "widgetPage") else conditional
  }

  /**
   * `_wrapWidgets`: the editor's wrapper template with the save and
   * conditional parameters in editor mode, the plain wrapper without them
   * otherwise; the class section; the group id and the kept children.
   * `conditional` is what the layout helper's `prepareConditionalParams`
   * returns for these parameters.
   */
  function Wrap(groupWidgetId: int, widgetPageId: int, parentGroupId: int, kept: seq<int>,
                params: Params, editor: bool, groupBorder: bool, conditional: seq<Entry>): (r: Wrapper)
    ensures r.templateName == (if editor then "wf_layout_editor_widget_group_wrapper" else "wf_widget_group_wrapper")
    ensures r.saveParams.Some? <==> editor
    ensures r.conditionalParams.Some? <==> editor
    ensures editor ==> Get(r.saveParams.value, "group_id") == Int(groupWidgetId)
    ensures r.classSection == ClassSection(params.isHook, groupBorder, parentGroupId)
    ensures r.groupId == groupWidgetId && r.widgetIds == kept
  {
    Wrapper(
      if editor then "wf_layout_editor_widget_group_wrapper" else "wf_widget_group_wrapper",
      ClassSection(params.isHook, groupBorder, parentGroupId),
      if editor then Some(SaveParams(groupWidgetId, widgetPageId, conditional)) else None,
      if editor then Some(ConditionalParams(widgetPageId, conditional)) else None,
      groupWidgetId,
      kept)
  }

  /** The renderer classes `prepare` hands each child to, in order: those that have a renderer. */
  function Prepared(hosts: Hosts, children: seq<Child>): seq<int> {
    if children == [] then []
    else
      var last := children[|children| - 1];
      Prepared(hosts, children[..|children| - 1]) + (if hosts.hasRenderer(last.className) then [last.widget.widgetId] else [])
  }

  // ---------------------------------------------------------------------
  // Properties of the composition

  /** The ids of the children at the positions of `order` that are kept, in that order. */
  function KeptIds(children: seq<Child>, order: seq<nat>, editor: bool): seq<int>
    requires forall j :: 0 <= j < |order| ==> order[j] < |children|
  {
    if order == [] then []
    else
      var c := children[order[|order| - 1]];
      KeptIds(children, order[..|order| - 1], editor) + (if Kept(c, editor) then [c.widget.widgetId] else [])
  }

  /** Changing a child at a position `order` does not name leaves the kept ids alone. */
  lemma {:induction false} KeptIdsFrame(children: seq<Child>, order: seq<nat>, editor: bool, i: nat, c: Child)
    requires forall j :: 0 <= j < |order| ==> order[j] < |children|
    requires i < |children| && i !in order
    ensures KeptIds(children[i := c], order, editor) == KeptIds(children, order, editor)
  {
    if order != [] {
      KeptIdsFrame(children, order[..|order| - 1], editor, i, c);
    }
  }

  /** A position not yet visited still holds the child as it was. */
  lemma {:induction false} WalkLeavesUnvisited(hosts: Hosts, children: seq<Child>, order: seq<nat>, k: nat, position: string,
                                               params: Params, groupId: int, layout: Layout, editor: bool, i: nat)
    requires k <= |order| && forall j :: 0 <= j < |order| ==> order[j] < |children|
    requires i < |children| && i !in order[..k]
    ensures Walk(hosts, children, order, k, position, params, groupId, layout, editor).children[i] == children[i]
  {
    if k > 0 {
      assert order[..k - 1] == order[..k][..k - 1];
      WalkLeavesUnvisited(hosts, children, order, k - 1, position, params, groupId, layout, editor, i);
    }
  }

  /**
   * With distinct positions, the child at the `j`-th position ends up as
   * the visit made it, seeing the number of children kept before it, and
   * was visited as it originally was.
   */
  lemma {:induction false} WalkVisits(hosts: Hosts, children: seq<Child>, order: seq<nat>, k: nat, position: string,
                                      params: Params, groupId: int, layout: Layout, editor: bool, j: nat)
    requires k <= |order| && forall t :: 0 <= t < |order| ==> order[t] < |children|
    requires Distinct(order) && j < k
    ensures Walk(hosts, children, order, k, position, params, groupId, layout, editor).children[order[j]]
         == Visit(hosts, children[order[j]], position, params, groupId, layout, editor,
                  |Walk(hosts, children, order, j, position, params, groupId, layout, editor).kept|)
  {
    if j == k - 1 {
      assert order[j] !in order[..j];
      WalkLeavesUnvisited(hosts, children, order, j, position, params, groupId, layout, editor, order[j]);
    } else {
      WalkVisits(hosts, children, order, k - 1, position, params, groupId, layout, editor, j);
    }
  }

  /** The kept ids are exactly the ids of the visited children that are kept, in visiting order. */
  lemma {:induction false} WalkKeepsInOrder(hosts: Hosts, children: seq<Child>, order: seq<nat>, k: nat, position: string,
                                            params: Params, groupId: int, layout: Layout, editor: bool)
    requires k <= |order| && forall j :: 0 <= j < |order| ==> order[j] < |children|
    requires Distinct(order)
    ensures var p := Walk(hosts, children, order, k, position, params, groupId, layout, editor);
      p.kept == KeptIds(p.children, order[..k], editor)
  {
    if k > 0 {
      var p := Walk(hosts, children, order, k - 1, position, params, groupId, layout, editor);
      var i := order[k - 1];
      var c := Visit(hosts, p.children[i], position, params, groupId, layout, editor, |p.kept|);
      WalkKeepsInOrder(hosts, children, order, k - 1, position, params, groupId, layout, editor);
      assert order[..k][..k - 1] == order[..k - 1];
      assert i !in order[..k - 1];
      KeptIdsFrame(p.children, order[..k - 1], editor, i, c);
    }
  }

  /**
   * Lines 71-82: a visited child is deferred exactly when some child was
   * kept before it, the layout is tabs, the editor is off and its renderer
   * can ajax-load; a deferred child's html is the ajax link, built from
   * the group's own parameters; any other child is rendered with the
   * group's id added to them.
   */
  lemma WalkDefersExactly(hosts: Hosts, children: seq<Child>, order: seq<nat>, k: nat, position: string,
                          params: Params, groupId: int, layout: Layout, editor: bool, j: nat)
    requires k <= |order| && forall t :: 0 <= t < |order| ==> order[t] < |children|
    requires Distinct(order) && j < k
    ensures var c := Walk(hosts, children, order, k, position, params, groupId, layout, editor).children[order[j]];
      var before := Walk(hosts, children, order, j, position, params, groupId, layout, editor).kept;
      var w := children[order[j]].widget;
      && (c.ajaxLoadUrl.AjaxLink? <==>
            !editor && before != [] && layout == Tabs && CanAjaxLoad(hosts, children[order[j]].className))
      && (c.ajaxLoadUrl.AjaxLink? ==> c.html == c.ajaxLoadUrl == AjaxLink(w.widgetId, AjaxLoadParams(w, params)))
      && (!c.ajaxLoadUrl.AjaxLink? ==>
            c.ajaxLoadUrl == Text("") && c.html == hosts.renderWidget(w, position, params.(parentGroupId := Some(groupId))))
  {
    WalkVisits(hosts, children, order, k, position, params, groupId, layout, editor, j);
  }

  /** Lines 71-72: until a child is kept nothing is deferred, so the first kept child is always rendered inline. */
  lemma FirstKeptIsInline(hosts: Hosts, children: seq<Child>, order: seq<nat>, k: nat, position: string,
                          params: Params, groupId: int, layout: Layout, editor: bool, j: nat)
    requires k <= |order| && forall t :: 0 <= t < |order| ==> order[t] < |children|
    requires Distinct(order) && j < k
    requires Walk(hosts, children, order, j, position, params, groupId, layout, editor).kept == []
    ensures Walk(hosts, children, order, k, position, params, groupId, layout, editor).children[order[j]].ajaxLoadUrl == Text("")
  {
    WalkVisits(hosts, children, order, k, position, params, groupId, layout, editor, j);
  }

  /** Outside the tabs layout, or in the editor, every visited child is rendered inline. */
  lemma OnlyTabsDefer(hosts: Hosts, children: seq<Child>, order: seq<nat>, k: nat, position: string,
                      params: Params, groupId: int, layout: Layout, editor: bool, j: nat)
    requires k <= |order| && forall t :: 0 <= t < |order| ==> order[t] < |children|
    requires Distinct(order) && j < k
    requires editor || layout != Tabs
    ensures Walk(hosts, children, order, k, position, params, groupId, layout, editor).children[order[j]].ajaxLoadUrl == Text("")
  {
    WalkVisits(hosts, children, order, k, position, params, groupId, layout, editor, j);
  }

  /** A kept child is one whose html is not empty, or any child in the editor. */
  lemma {:induction false} KeptIdsMembers(children: seq<Child>, order: seq<nat>, editor: bool, id: int)
    requires forall j :: 0 <= j < |order| ==> order[j] < |children|
    ensures id in KeptIds(children, order, editor) <==>
      exists j :: 0 <= j < |order| && children[order[j]].widget.widgetId == id && Kept(children[order[j]], editor)
  {
    if order != [] {
      var init := order[..|order| - 1];
      KeptIdsMembers(children, init, editor, id);
      if id in KeptIds(children, init, editor) {
        var j :| 0 <= j < |init| && children[init[j]].widget.widgetId == id && Kept(children[init[j]], editor);
        assert order[j] == init[j];
      }
      if exists j :: 0 <= j < |order| && children[order[j]].widget.widgetId == id && Kept(children[order[j]], editor) {
        var j :| 0 <= j < |order| && children[order[j]].widget.widgetId == id && Kept(children[order[j]], editor);
        if j < |init| {
          assert init[j] == order[j];
        }
      }
    }
  }

  /** Positions `0..n` in order are distinct. */
  lemma SelectedIsDistinct(n: nat, layout: Layout, editor: bool, pick: nat)
    requires n == 0 || pick < n
    ensures Distinct(Selected(n, layout, editor, pick))
  {
  }

  /**
   * Lines 54-59: a random group outside the editor renders exactly the
   * picked child; every other child is left as it was, and at most that
   * child's id is kept.
   */
  lemma RandomRendersOnlyThePick(hosts: Hosts, children: seq<Child>, position: string, params: Params, groupId: int,
                                 editor: bool, pick: nat, i: nat)
    requires pick < |children| && !editor && i < |children|
    ensures var order := Selected(|children|, Random, editor, pick);
      var p := Walk(hosts, children, order, |order|, position, params, groupId, Random, editor);
      && order == [pick]
      && (i != pick ==> p.children[i] == children[i])
      && p.kept in {[], [children[pick].widget.widgetId]}
  {
    var order := Selected(|children|, Random, editor, pick);
    var p0 := Walk(hosts, children, order, 0, position, params, groupId, Random, editor);
    var c := Visit(hosts, children[pick], position, params, groupId, Random, editor, 0);
    assert p0 == Progress(children, []);
    assert c.widget == children[pick].widget;
    assert Walk(hosts, children, order, 1, position, params, groupId, Random, editor)
        == Progress(children[pick := c], if Kept(c, editor) then [c.widget.widgetId] else []);
  }

  /**
   * Lines 122-133: in the editor the widget page id moves from the
   * conditional into the save parameters exactly when the group has a
   * widget page and the conditional names one; otherwise the conditional
   * is left as it was and only the group id is saved.
   */
  lemma WidgetPageMovesIntoSaveParams(groupWidgetId: int, widgetPageId: int, conditional: seq<Entry>)
    ensures var save := SaveParams(groupWidgetId, widgetPageId, conditional);
      var cond := ConditionalParams(widgetPageId, conditional);
      && Get(save, "group_id") == Int(groupWidgetId)
      && (HasKey(save, "widget_page_id") <==> widgetPageId != 0 && !EmptyAt(conditional, "widgetPage"))
      && (HasKey(save, "widget_page_id") ==> Get(save, "widget_page_id") == Int(widgetPageId) && !HasKey(cond, "widgetPage"))
      && (!HasKey(save, "widget_page_id") ==> cond == conditional)
      && (forall k :: k != "widgetPage" ==> Find(cond, k) == Find(conditional, k))
  {
    var save := SaveParams(groupWidgetId, widgetPageId, conditional);
    assert save[0] == Entry("group_id", Int(groupWidgetId));
    assert |"group_id"| != |"widget_page_id"|;
    assert Find(save, "widget_page_id") == Find(save[1..], "widget_page_id");
    if widgetPageId != 0 && !EmptyAt(conditional, "widgetPage") {
      assert save[1..] == [Entry("widget_page_id", Int(widgetPageId))];
      assert Find(save[1..], "widget_page_id") == Some(Int(widgetPageId));
    } else {
      assert save[1..] == [];
    }
  }

  /**
   * Lines 137-151: the class section is empty exactly for a non-hook group
   * without a section border; a hook starts with the sidebar classes, and
   * a bordered top-level group ends with the section classes.
   */
  lemma ClassSectionShape(isHook: bool, groupBorder: bool, parentGroupId: int)
    ensures var s := ClassSection(isHook, groupBorder, parentGroupId);
      && (s == "" <==> !isHook && !(groupBorder && parentGroupId == 0))
      && (isHook ==> SidebarClasses <= s)
      && (groupBorder && parentGroupId == 0 && isHook ==> s == SidebarClasses + " section sectionMain")
      && (groupBorder && parentGroupId == 0 && !isHook ==> s == " section")
      && (!(groupBorder && parentGroupId == 0) ==> s == (if isHook then SidebarClasses else ""))
  {
  }

  /** Lines 22-27: `prepare` reaches every child that has a renderer and no other. */
  lemma {:induction false} PreparedMembers(hosts: Hosts, children: seq<Child>, id: int)
    ensures id in Prepared(hosts, children) <==>
      exists i :: 0 <= i < |children| && children[i].widget.widgetId == id && hosts.hasRenderer(children[i].className)
  {
    if children != [] {
      var init := children[..|children| - 1];
      PreparedMembers(hosts, init, id);
      if id in Prepared(hosts, init) {
        var i :| 0 <= i < |init| && init[i].widget.widgetId == id && hosts.hasRenderer(init[i].className);
        assert children[i] == init[i];
      }
      if exists i :: 0 <= i < |children| && children[i].widget.widgetId == id && hosts.hasRenderer(children[i].className) {
        var i :| 0 <= i < |children| && children[i].widget.widgetId == id && hosts.hasRenderer(children[i].className);
        if i < |init| {
          assert init[i] == children[i];
        }
      }
    }
  }

  class Group {
    const widgetId: int
    const options: seq<Entry>
    /** The group this group sits in (`group_id`), 0 at the top level. */
    const parentGroupId: int
    const widgetPageId: int
    var children: seq<Child>

    constructor (widgetId: int, options: seq<Entry>, parentGroupId: int, widgetPageId: int, children: seq<Child>)
      ensures this.widgetId == widgetId && this.options == options
      ensures this.parentGroupId == parentGroupId && this.widgetPageId == widgetPageId
      ensures this.children == children
    {
      this.widgetId := widgetId;
      this.options := options;
      this.parentGroupId := parentGroupId;
      this.widgetPageId := widgetPageId;
      this.children := children;
    }

    /** Lines 16-28: each child with a renderer is prepared by it; an empty group prepares nothing. */
    method Prepare(hosts: Hosts) returns (prepared: seq<int>)
      ensures prepared == Prepared(hosts, children)
    {
      prepared := [];
      for i := 0 to |children|
        invariant prepared == Prepared(hosts, children[..i])
      {
        assert children[..i + 1][..i] == children[..i];
        if hosts.hasRenderer(children[i].className) {
          prepared := prepared + [children[i].widget.widgetId];
        }
      }
      assert children[..|children|] == children;
    }

    /**
     * Lines 30-90: an empty group renders `''`; otherwise the selected
     * children are visited in order, their runtime html written into
     * them, and the kept ones are wrapped.
     */
    method Render(hosts: Hosts, position: string, params: Params, editor: bool, pick: nat,
                  groupBorder: bool, conditional: seq<Entry>)
      returns (out: GroupOutput)
      requires children == [] || pick < |children|
      modifies this
      ensures old(children) == [] ==> out == Blank && children == old(children)
      ensures old(children) != [] ==>
        var layout := LayoutOf(options);
        var order := Selected(|old(children)|, layout, editor, pick);
        var p := Walk(hosts, old(children), order, |order|, position, params, widgetId, layout, editor);
        && children == p.children
        && out == Wrapped(Wrap(widgetId, widgetPageId, parentGroupId, p.kept, params, editor, groupBorder, conditional))
    {
      if children == [] {
        return Blank;
      }
      var layout := LayoutOf(options);
      var order := Selected(|children|, layout, editor, pick);
      var kept := VisitAll(hosts, order, position, params, layout, editor);
      out := Wrapped(Wrap(widgetId, widgetPageId, parentGroupId, kept, params, editor, groupBorder, conditional));
    }

    /** Lines 62-89: visit the selected positions in order, collecting the ids of the children kept. */
    method VisitAll(hosts: Hosts, order: seq<nat>, position: string, params: Params, layout: Layout, editor: bool)
      returns (kept: seq<int>)
      requires forall j :: 0 <= j < |order| ==> order[j] < |children|
      modifies this`children
      ensures Progress(children, kept) == Walk(hosts, old(children), order, |order|, position, params, widgetId, layout, editor)
    {
      kept := [];
      ghost var initial := children;
      for t := 0 to |order|
        invariant |children| == |initial|
        invariant Walk(hosts, initial, order, t, position, params, widgetId, layout, editor) == Progress(children, kept)
      {
        var child := VisitChild(hosts, order[t], position, params, layout, editor, |kept|);
        if !EmptyMarkup(child.html) || editor {
          kept := kept + [child.widget.widgetId];
        }
      }
    }

    /** Lines 66-82: one child's visit, with its runtime html and ajax URL reset first. */
    method VisitChild(hosts: Hosts, i: nat, position: string, params: Params, layout: Layout, editor: bool, keptSoFar: nat)
      returns (child: Child)
      requires i < |children|
      modifies this`children
      ensures child == Visit(hosts, old(children)[i], position, params, widgetId, layout, editor, keptSoFar)
      ensures children == old(children)[i := child]
    {
      children := children[i := children[i].(html := Text(""), ajaxLoadUrl := Text(""))];
      child := children[i];
      if !editor && keptSoFar > 0 && layout == Tabs && hosts.hasRenderer(child.className)
         && hosts.configurationOf(child.className).canAjaxLoad
      {
        var url := AjaxLink(child.widget.widgetId, AjaxLoadParams(child.widget, params));
        child := child.(ajaxLoadUrl := url, html := url);
      } else {
        child := child.(html := hosts.renderWidget(child.widget, position, params.(parentGroupId := Some(widgetId))));
      }
      children := children[i := child];
    }
  }
}
