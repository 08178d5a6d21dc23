/**
 * The tabs block: tabs `{ id, title, content }` under `props.tabs`, and the id of the tab the
 * reader is looking at, which survives edits by falling back to the first remaining tab.
 */
module Tabs {
  import opened Base
  import opened Json
  import opened ListItems

  const TabsKey: string := "tabs"

  function TabItem(id: string, title: string, content: string): Value {
    Obj(map["id" := Str(id), "title" := Str(title), "content" := Str(content)])
  }

  /** Two tabs with placeholder contents. */
  const DefaultTabs: seq<Value> := [
    TabItem("1", "Aba 1", "Conteúdo da aba 1"),
    TabItem("2", "Aba 2", "Conteúdo da aba 2")
  ]

  /** `element.props?.tabs || [defaults]`. */
  function TabList(props: Value): (r: seq<Value>)
    requires Shaped(props, TabsKey)
    ensures AllObjects(r)
    ensures !Present(Prop(props, TabsKey)) ==> r == DefaultTabs
  {
    Items(props, TabsKey, DefaultTabs)
  }

  /** `handleAddTab`: "Aba n+1" with empty content appended. */
  function AddTab(props: Value, freshId: string): (r: Value)
    requires Shaped(props, TabsKey)
    ensures Shaped(r, TabsKey)
    ensures TabList(r) == TabList(props) + [TabItem(freshId, Numbered("Aba", |TabList(props)|), "")]
    ensures props.Obj? ==> forall k :: k != TabsKey ==> Prop(r, k) == Prop(props, k)
  {
    AddItem(props, TabsKey, DefaultTabs, TabItem(freshId, Numbered("Aba", |TabList(props)|), ""))
  }

  /** The two fields a tab editor can change. */
  datatype TabField = Title | Content {
    function Name(): string {
      match this
      case Title => "title"
      case Content => "content"
    }
  }

  /** `handleUpdateTab`: only the named field of the matching tabs changes; ids stay. */
  function UpdateTab(props: Value, id: string, field: TabField, value: string): (r: Value)
    requires Shaped(props, TabsKey)
    ensures Shaped(r, TabsKey)
    ensures TabList(r) == Updated(TabList(props), id, field.Name(), Str(value))
    ensures forall i :: 0 <= i < |TabList(r)| ==> Prop(TabList(r)[i], "id") == Prop(TabList(props)[i], "id")
    ensures props.Obj? ==> forall k :: k != TabsKey ==> Prop(r, k) == Prop(props, k)
  {
    UpdatedKeepsIds(TabList(props), id, field.Name(), Str(value));
    UpdateItem(props, TabsKey, DefaultTabs, id, field.Name(), Str(value))
  }

  /** The remove button is enabled only while more than one tab remains. */
  predicate CanRemove(tabs: seq<Value>) {
    |tabs| > 1
  }

  /** `tabs[0]?.id || "1"`: the tab shown first. */
  function InitialActive(tabs: seq<Value>): (r: Option<Value>)
    ensures r.Some?
    ensures tabs != [] && Present(Prop(tabs[0], "id")) ==> r == Prop(tabs[0], "id")
    ensures (tabs == [] || !Present(Prop(tabs[0], "id"))) ==> r == Some(Str("1"))
  {
    if tabs != [] && Present(Prop(tabs[0], "id")) then Prop(tabs[0], "id") else Some(Str("1"))
  }

  /** The index of the first tab whose id is `active`, searching from `i`. */
  function FindFrom(tabs: seq<Value>, active: Option<Value>, i: nat): (r: Option<nat>)
    requires i <= |tabs|
    ensures r.Some? ==> i <= r.value < |tabs| && Prop(tabs[r.value], "id") == active
                        && forall j :: i <= j < r.value ==> Prop(tabs[j], "id") != active
    ensures r.None? ==> forall j :: i <= j < |tabs| ==> Prop(tabs[j], "id") != active
    decreases |tabs| - i
  {
    if i == |tabs| then None
    else if Prop(tabs[i], "id") == active then Some(i)
    else FindFrom(tabs, active, i + 1)
  }

  /**
   * `tabs.find((t) => t.id === activeTabId) || tabs[0]`: the first tab with the active id, or the
   * first tab when none has it.
   */
  function CurrentTab(tabs: seq<Value>, active: Option<Value>): (r: Value)
    requires tabs != []
    ensures r in tabs
    ensures (exists i :: 0 <= i < |tabs| && Prop(tabs[i], "id") == active) ==> Prop(r, "id") == active
    ensures (forall i :: 0 <= i < |tabs| ==> Prop(tabs[i], "id") != active) ==> r == tabs[0]
    ensures (exists i :: 0 <= i < |tabs| && Prop(tabs[i], "id") == active) ==>
              exists i :: 0 <= i < |tabs| && r == tabs[i] && Prop(tabs[i], "id") == active
                          && forall j :: 0 <= j < i ==> Prop(tabs[j], "id") != active
  {
    match FindFrom(tabs, active, 0)
    case Some(i) => tabs[i]
    case None => tabs[0]
  }

  /** In view mode a tabs block renders nothing exactly when its stored list is empty. */
  lemma ViewEmpty(props: Value)
    requires Shaped(props, TabsKey)
    ensures |TabList(props)| == 0 <==> Prop(props, TabsKey) == Some(Arr([]))
  {
    assert RendersNothing(props, TabsKey, DefaultTabs) == (|TabList(props)| == 0);
  }

  /** The tabs block's own state: which tab is active. */
  class TabsState {
    var activeTabId: Option<Value>

    constructor(props: Value)
      requires Shaped(props, TabsKey)
      ensures activeTabId == InitialActive(TabList(props))
    {
      activeTabId := InitialActive(TabList(props));
    }

    /** A click on a tab header. */
    method SelectTab(tab: Value)
      modifies this
      ensures activeTabId == Prop(tab, "id")
    {
      activeTabId := Prop(tab, "id");
    }

    /**
     * `handleRemoveTab`: the tabs with that id go; when the active tab was removed and tabs remain,
     * the first remaining tab becomes active, otherwise the active id is kept.
     */
    method RemoveTab(props: Value, id: string) returns (update: Value)
      requires Shaped(props, TabsKey)
      modifies this
      ensures update == RemoveItem(props, TabsKey, DefaultTabs, id)
      ensures Without(TabList(props), id) != [] ==> activeTabId == NextActive(TabList(props), id, old(activeTabId))
      ensures Without(TabList(props), id) == [] ==> activeTabId == old(activeTabId)
    {
      var newTabs := Without(TabList(props), id);
      update := RemoveItem(props, TabsKey, DefaultTabs, id);
      if activeTabId == Some(Str(id)) && |newTabs| > 0 {
        activeTabId := Prop(newTabs[0], "id");
      }
    }
  }

  /** The active id after removing tab `id` from `tabs`, when some tab remains. */
  function NextActive(tabs: seq<Value>, id: string, active: Option<Value>): Option<Value>
    requires Without(tabs, id) != []
  {
    if active == Some(Str(id)) then Prop(Without(tabs, id)[0], "id") else active
  }

  /**
   * After a removal that leaves tabs, the tab shown is never a removed one: the first remaining
   * tab when the active one went, and the active one itself when it stayed.
   */
  lemma RemovalShowsRemainingTab(tabs: seq<Value>, id: string, active: Option<Value>)
    requires Without(tabs, id) != []
    ensures !HasId(CurrentTab(Without(tabs, id), NextActive(tabs, id, active)), id)
    ensures active == Some(Str(id)) ==> CurrentTab(Without(tabs, id), NextActive(tabs, id, active)) == Without(tabs, id)[0]
    ensures active != Some(Str(id)) && (exists i :: 0 <= i < |tabs| && Prop(tabs[i], "id") == active) ==>
              Prop(CurrentTab(Without(tabs, id), NextActive(tabs, id, active)), "id") == active
  {
    var rest := Without(tabs, id);
    var next := NextActive(tabs, id, active);
    var c := CurrentTab(rest, next);
    assert c in rest;
    if active == Some(Str(id)) {
      assert FindFrom(rest, next, 0) == Some(0);
    }
    if active != Some(Str(id)) && exists i :: 0 <= i < |tabs| && Prop(tabs[i], "id") == active {
      var i :| 0 <= i < |tabs| && Prop(tabs[i], "id") == active;
      assert !HasId(tabs[i], id) && tabs[i] in rest;
      var j :| 0 <= j < |rest| && rest[j] == tabs[i];
    }
  }
}
