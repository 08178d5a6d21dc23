/**
 * The checklist block: items `{ id, text, checked }` under `props.items`. In edit mode every change,
 * ticking included, goes back through the update callback; in view mode a reader ticks a local
 * copy of the list that is never sent anywhere.
 */
module Checklist {
  import opened Base
  import opened Json
  import opened Lists
  import opened ListItems
  import opened Colors

  const ItemsKey: string := "items"

  function CheckItem(id: string, text: string, checked: bool): Value {
    Obj(map["id" := Str(id), "text" := Str(text), "checked" := Bool(checked)])
  }

  /** Two unchecked tasks. */
  const DefaultItems: seq<Value> := [CheckItem("1", "Tarefa 1", false), CheckItem("2", "Tarefa 2", false)]

  /** `element.props?.items || [defaults]`. */
  function ChecklistItems(props: Value): (r: seq<Value>)
    requires Shaped(props, ItemsKey)
    ensures AllObjects(r)
    ensures !Present(Prop(props, ItemsKey)) ==> r == DefaultItems && |r| == 2 && !IsChecked(r[0]) && !IsChecked(r[1])
  {
    Items(props, ItemsKey, DefaultItems)
  }

  /** `item.checked`, read as a condition. */
  predicate IsChecked(item: Value) {
    Present(Prop(item, "checked"))
  }

  /** `handleAddItem`: an unchecked "Tarefa n+1" appended, every other prop kept. */
  function AddItemTo(props: Value, freshId: string): (r: Value)
    requires Shaped(props, ItemsKey)
    ensures Shaped(r, ItemsKey)
    ensures ChecklistItems(r) == ChecklistItems(props) + [CheckItem(freshId, Numbered("Tarefa", |ChecklistItems(props)|), false)]
    ensures !IsChecked(ChecklistItems(r)[|ChecklistItems(r)| - 1])
    ensures props.Obj? ==> forall k :: k != ItemsKey ==> Prop(r, k) == Prop(props, k)
  {
    AddItem(props, ItemsKey, DefaultItems, CheckItem(freshId, Numbered("Tarefa", |ChecklistItems(props)|), false))
  }

  /** `handleRemoveItem`: the items with that id go. */
  function RemoveItemFrom(props: Value, id: string): (r: Value)
    requires Shaped(props, ItemsKey)
    ensures Shaped(r, ItemsKey)
    ensures ChecklistItems(r) == Without(ChecklistItems(props), id)
    ensures props.Obj? ==> forall k :: k != ItemsKey ==> Prop(r, k) == Prop(props, k)
  {
    RemoveItem(props, ItemsKey, DefaultItems, id)
  }

  /** `handleUpdateItem`: only the matching items' text changes. */
  function UpdateItemText(props: Value, id: string, text: string): (r: Value)
    requires Shaped(props, ItemsKey)
    ensures Shaped(r, ItemsKey)
    ensures ChecklistItems(r) == Updated(ChecklistItems(props), id, "text", Str(text))
    ensures props.Obj? ==> forall k :: k != ItemsKey ==> Prop(r, k) == Prop(props, k)
  {
    UpdateItem(props, ItemsKey, DefaultItems, id, "text", Str(text))
  }

  /** The remove button is enabled only while more than one item remains. */
  predicate CanRemove(items: seq<Value>) {
    |items| > 1
  }

  /** `items.map((item) => item.id === id ? { ...item, checked: !item.checked } : item)`. */
  function Toggled(items: seq<Value>, id: string): (r: seq<Value>)
    ensures |r| == |items|
    ensures forall i :: 0 <= i < |items| && HasId(items[i], id) ==> IsChecked(r[i]) == !IsChecked(items[i])
    ensures forall i :: 0 <= i < |items| && !HasId(items[i], id) ==> r[i] == items[i]
    ensures forall i, k :: 0 <= i < |items| && items[i].Obj? && k != "checked" ==> Prop(r[i], k) == Prop(items[i], k)
    ensures AllObjects(items) ==> AllObjects(r)
  {
    MapWhere(items, x => HasId(x, id), x => Set(x, "checked", Bool(!IsChecked(x))))
  }

  /** Ticking the same item twice restores every item's state and keeps every id. */
  lemma ToggleTwice(items: seq<Value>, id: string)
    requires AllObjects(items)
    ensures forall i :: 0 <= i < |items| ==>
      IsChecked(Toggled(Toggled(items, id), id)[i]) == IsChecked(items[i])
      && Prop(Toggled(Toggled(items, id), id)[i], "id") == Prop(items[i], "id")
  {
  }

  /** The edit-mode half of `toggleCheck`: new props with the matching item flipped. */
  function ToggleInProps(props: Value, id: string): (r: Value)
    requires Shaped(props, ItemsKey)
    ensures Shaped(r, ItemsKey)
    ensures ChecklistItems(r) == Toggled(ChecklistItems(props), id)
    ensures props.Obj? ==> forall k :: k != ItemsKey ==> Prop(r, k) == Prop(props, k)
  {
    Set(props, ItemsKey, Arr(Toggled(ChecklistItems(props), id)))
  }

  /** In view mode a checklist renders nothing exactly when its stored list is empty. */
  lemma ViewEmpty(props: Value)
    requires Shaped(props, ItemsKey)
    ensures |ChecklistItems(props)| == 0 <==> Prop(props, ItemsKey) == Some(Arr([]))
  {
    assert RendersNothing(props, ItemsKey, DefaultItems) == (|ChecklistItems(props)| == 0);
  }

  const UncheckedStyle: string := "border-zinc-700 text-transparent hover:border-zinc-500"
  const DefaultCheckedStyle: string := "bg-indigo-500 border-indigo-500 text-white"

  /**
   * `getCheckedStyle`: the classes handed to the class-name merger. Unchecked items get a fixed
   * style; checked ones the colour's background and border, or indigo when the colour is unknown.
   */
  function CheckedStyle(colors: seq<Color>, props: Value, isChecked: bool): (r: seq<string>)
    ensures !isChecked ==> r == [UncheckedStyle]
    ensures isChecked && ByValue(colors, ColorValue(props, "#6366f1")).None? ==> r == [DefaultCheckedStyle]
    ensures isChecked && ByValue(colors, ColorValue(props, "#6366f1")).Some? ==>
      var c := ByValue(colors, ColorValue(props, "#6366f1")).value;
      c in colors && r == [c.tailwind, c.border, "text-white"]
  {
    var activeColor := ByValue(colors, ColorValue(props, "#6366f1"));
    if !isChecked then [UncheckedStyle]
    else if activeColor.None? then [DefaultCheckedStyle]
    else [activeColor.value.tailwind, activeColor.value.border, "text-white"]
  }

  /** The view-mode state of one checklist: the reader's local copy of the items. */
  class ChecklistView {
    var localItems: seq<Value>

    /** The local copy starts as the items the block was mounted with. */
    constructor(props: Value)
      requires Shaped(props, ItemsKey)
      ensures localItems == ChecklistItems(props)
    {
      localItems := ChecklistItems(props);
    }

    /**
     * `toggleCheck(id, isEditMode)`: in edit mode the flip goes out as new props and the local copy
     * is untouched; in view mode only the local copy flips and nothing is sent.
     */
    method ToggleCheck(props: Value, id: string, isEditMode: bool) returns (update: Option<Value>)
      requires Shaped(props, ItemsKey)
      modifies this
      ensures isEditMode ==> update == Some(ToggleInProps(props, id)) && localItems == old(localItems)
      ensures !isEditMode ==> update.None? && localItems == Toggled(old(localItems), id)
    {
      if isEditMode {
        update := Some(ToggleInProps(props, id));
      } else {
        update := None;
        localItems := Toggled(localItems, id);
      }
    }
  }
}
