/**
 * The accordion block: items `{ id, title, content }` under `props.items`, with titles drawn in a
 * colour found by value or by text class.
 */
module Accordion {
  import opened Base
  import opened Json
  import opened ListItems
  import opened Colors

  const ItemsKey: string := "items"

  function AccordionItem(id: string, title: string, content: string): Value {
    Obj(map["id" := Str(id), "title" := Str(title), "content" := Str(content)])
  }

  /** A single placeholder item. */
  const DefaultItems: seq<Value> := [AccordionItem("1", "Item 1", "Conteúdo do item 1")]

  /** `element.props?.items || [default]`. */
  function AccordionItems(props: Value): (r: seq<Value>)
    requires Shaped(props, ItemsKey)
    ensures AllObjects(r)
    ensures !Present(Prop(props, ItemsKey)) ==> r == DefaultItems && |r| == 1
  {
    Items(props, ItemsKey, DefaultItems)
  }

  /** `handleAddItem`: "Item n+1" with empty content appended. */
  function AddAccordionItem(props: Value, freshId: string): (r: Value)
    requires Shaped(props, ItemsKey)
    ensures Shaped(r, ItemsKey)
    ensures AccordionItems(r) == AccordionItems(props) + [AccordionItem(freshId, Numbered("Item", |AccordionItems(props)|), "")]
    ensures props.Obj? ==> forall k :: k != ItemsKey ==> Prop(r, k) == Prop(props, k)
  {
    AddItem(props, ItemsKey, DefaultItems, AccordionItem(freshId, Numbered("Item", |AccordionItems(props)|), ""))
  }

  /** `handleRemoveItem`: the items with that id go. */
  function RemoveAccordionItem(props: Value, id: string): (r: Value)
    requires Shaped(props, ItemsKey)
    ensures Shaped(r, ItemsKey)
    ensures AccordionItems(r) == Without(AccordionItems(props), id)
    ensures props.Obj? ==> forall k :: k != ItemsKey ==> Prop(r, k) == Prop(props, k)
  {
    RemoveItem(props, ItemsKey, DefaultItems, id)
  }

  /** The two fields an item editor can change. */
  datatype ItemField = Title | Content {
    function Name(): string {
      match this
      case Title => "title"
      case Content => "content"
    }
  }

  /** `handleUpdateItem`: only the named field of the matching items changes; ids stay. */
  function UpdateAccordionItem(props: Value, id: string, field: ItemField, value: string): (r: Value)
    requires Shaped(props, ItemsKey)
    ensures Shaped(r, ItemsKey)
    ensures AccordionItems(r) == Updated(AccordionItems(props), id, field.Name(), Str(value))
    ensures forall i :: 0 <= i < |AccordionItems(r)| ==> Prop(AccordionItems(r)[i], "id") == Prop(AccordionItems(props)[i], "id")
    ensures props.Obj? ==> forall k :: k != ItemsKey ==> Prop(r, k) == Prop(props, k)
  {
    UpdatedKeepsIds(AccordionItems(props), id, field.Name(), Str(value));
    UpdateItem(props, ItemsKey, DefaultItems, id, field.Name(), Str(value))
  }

  /** The remove button is enabled only while more than one item remains. */
  predicate CanRemove(items: seq<Value>) {
    |items| > 1
  }

  /** In view mode an accordion renders nothing exactly when its stored list is empty. */
  lemma ViewEmpty(props: Value)
    requires Shaped(props, ItemsKey)
    ensures |AccordionItems(props)| == 0 <==> Prop(props, ItemsKey) == Some(Arr([]))
  {
    assert RendersNothing(props, ItemsKey, DefaultItems) == (|AccordionItems(props)| == 0);
  }

  /** A table entry matches the title colour by its value or by its text class. */
  function TitleMatch(cv: Value): Color -> bool {
    (c: Color) => Str(c.value) == cv || Str(c.text) == cv
  }

  /**
   * The title colour: the first table entry whose value or text class equals `props.color`
   * (default "#fafafa"), its text class, and "text-zinc-50" when nothing matches.
   */
  function TitleClass(colors: seq<Color>, props: Value): (r: string)
    ensures var c := Find(colors, TitleMatch(ColorValue(props, "#fafafa")));
      c.Some? ==> r == (if c.value.text != "" then c.value.text else "text-zinc-50")
    ensures var cv := ColorValue(props, "#fafafa");
      (forall i :: 0 <= i < |colors| ==> Str(colors[i].value) != cv && Str(colors[i].text) != cv) ==> r == "text-zinc-50"
    ensures r == "text-zinc-50" || exists i :: 0 <= i < |colors| && r == colors[i].text
    ensures var cv := ColorValue(props, "#fafafa");
      r != "text-zinc-50" ==> exists i :: 0 <= i < |colors| && r == colors[i].text
                                        && (Str(colors[i].value) == cv || Str(colors[i].text) == cv)
  {
    var cv := ColorValue(props, "#fafafa");
    var c := Find(colors, TitleMatch(cv));
    if c.Some? then
      var i :| 0 <= i < |colors| && colors[i] == c.value;
      OrDefault(Some(c.value.text), "text-zinc-50")
    else "text-zinc-50"
  }
}
