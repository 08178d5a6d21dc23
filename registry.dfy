/**
 * The palette of blocks the sidebar offers and the dispatch that picks a renderer for an element,
 * in edit mode (with the update callback) or in view mode (read only, with empty media hidden).
 */
module Registry {
  import opened Base
  import opened Json
  import opened Types

  /** One palette entry; the sidebar's icon is left out. */
  datatype PaletteEntry = PaletteEntry(key: string, id: string, caption: string, typ: ElementType, style: string)

  const SeparatorStyle: string := "mt-2 mb-4"

  function Entry(t: ElementType, caption: string, style: string): PaletteEntry {
    PaletteEntry(TagName(t), TagName(t), caption, t, style)
  }

  /** The palette, in the order the sidebar lists it. */
  const Palette: seq<PaletteEntry> := [
    Entry(Title, "Título", ""),
    Entry(Subtitle, "Subtítulo", ""),
    Entry(Text, "Texto", ""),
    Entry(Accordion, "Acordeão", ""),
    Entry(Checklist, "Checklist", ""),
    Entry(Timeline, "Timeline", ""),
    Entry(Tabs, "Abas", ""),
    Entry(Blockquote, "Citação", ""),
    Entry(Button, "Botão", ""),
    Entry(Image, "Imagem", ""),
    Entry(Poll, "Enquete", ""),
    Entry(Code, "Código", ""),
    Entry(Callout, "Ideia", ""),
    Entry(Embed, "Embed", ""),
    Entry(Separator, "Divisor", SeparatorStyle)
  ]

  /** `k in elementsList`, over the palette's own keys. */
  predicate IsPaletteKey(k: string) {
    exists i :: 0 <= i < |Palette| && Palette[i].key == k
  }

  /** The palette entry stored under `k`. */
  function Lookup(k: string): (r: Option<PaletteEntry>)
    ensures r.Some? <==> IsPaletteKey(k)
    ensures r.Some? ==> r.value in Palette && r.value.key == k
  {
    LookupFrom(k, 0)
  }

  function LookupFrom(k: string, i: nat): (r: Option<PaletteEntry>)
    requires i <= |Palette|
    ensures r.Some? <==> exists j :: i <= j < |Palette| && Palette[j].key == k
    ensures r.Some? ==> r.value in Palette && r.value.key == k
    decreases |Palette| - i
  {
    if i == |Palette| then None
    else if Palette[i].key == k then Some(Palette[i])
    else LookupFrom(k, i + 1)
  }

  /**
   * The palette has 15 entries with distinct keys; each entry's id and type are its key; and the
   * keys are exactly the tag names other than "voting" and "spacer".
   */
  lemma PaletteShape()
    ensures |Palette| == 15
    ensures forall i :: 0 <= i < |Palette| ==> Palette[i].id == Palette[i].key == TagName(Palette[i].typ)
    ensures forall i, j :: 0 <= i < j < |Palette| ==> Palette[i].key != Palette[j].key
    ensures forall t :: IsPaletteKey(TagName(t)) <==> t != Voting && t != Spacer
  {
    PaletteTypesDistinct();
    forall i, j | 0 <= i < j < |Palette| ensures Palette[i].key != Palette[j].key {
      if Palette[i].key == Palette[j].key {
        TagNameInjective(Palette[i].typ, Palette[j].typ);
      }
    }
    forall t ensures IsPaletteKey(TagName(t)) <==> t != Voting && t != Spacer {
      PaletteKeyOf(t);
    }
  }

  /** The element types the palette offers, in its order. */
  const PaletteTypes: seq<ElementType> :=
    [Title, Subtitle, Text, Accordion, Checklist, Timeline, Tabs, Blockquote, Button,
     Image, Poll, Code, Callout, Embed, Separator]

  lemma PaletteTypesListed()
    ensures |Palette| == |PaletteTypes|
    ensures forall i :: 0 <= i < |Palette| ==> Palette[i].typ == PaletteTypes[i]
    ensures forall i :: 0 <= i < |Palette| ==> Palette[i].id == Palette[i].key == TagName(Palette[i].typ)
  {
  }

  lemma PaletteTypesDistinct()
    ensures forall i :: 0 <= i < |Palette| ==> Palette[i].id == Palette[i].key == TagName(Palette[i].typ)
    ensures forall i :: 0 <= i < |Palette| ==> Palette[i].typ != Voting && Palette[i].typ != Spacer
    ensures forall i, j :: 0 <= i < j < |Palette| ==> Palette[i].typ != Palette[j].typ
  {
    PaletteTypesListed();
    PaletteTypesUnique();
  }

  lemma PaletteTypesUnique()
    ensures forall i :: 0 <= i < |PaletteTypes| ==> PaletteTypes[i] != Voting && PaletteTypes[i] != Spacer
    ensures forall i, j :: 0 <= i < j < |PaletteTypes| ==> PaletteTypes[i] != PaletteTypes[j]
  {
  }

  lemma PaletteKeyOf(t: ElementType)
    ensures IsPaletteKey(TagName(t)) <==> t != Voting && t != Spacer
  {
    PaletteTypesDistinct();
    if IsPaletteKey(TagName(t)) {
      var i :| 0 <= i < |Palette| && Palette[i].key == TagName(t);
      TagNameInjective(Palette[i].typ, t);
    }
    if t != Voting && t != Spacer {
      var k := PaletteIndex(t);
      assert Palette[k].key == TagName(t);
    }
  }

  /** Where a type other than voting and spacer sits in the palette. */
  function PaletteIndex(t: ElementType): (k: nat)
    requires t != Voting && t != Spacer
    ensures k < |PaletteTypes| && PaletteTypes[k] == t
  {
    match t
    case Title => 0
    case Subtitle => 1
    case Text => 2
    case Accordion => 3
    case Checklist => 4
    case Timeline => 5
    case Tabs => 6
    case Blockquote => 7
    case Button => 8
    case Image => 9
    case Poll => 10
    case Code => 11
    case Callout => 12
    case Embed => 13
    case Separator => 14
  }

  /** A palette key is the name of the tag its entry creates. */
  lemma PaletteKeyIsTag(k: string)
    requires IsPaletteKey(k)
    ensures ParseTag(k).Some? && TagName(ParseTag(k).value) == k
    ensures ParseTag(k).value != Voting && ParseTag(k).value != Spacer
  {
    var i :| 0 <= i < |Palette| && Palette[i].key == k;
    PaletteTypesDistinct();
    TagNameRoundTrip(Palette[i].typ);
  }

  datatype Mode = Edit | View

  /** The component a renderer mounts. */
  datatype Component =
    | TitleElement | TextElement | AccordionElement | ChecklistElement | TimelineElement
    | TabsElement | ImageElement | PollElement | CodeElement | CalloutElement | EmbedElement
    | SeparatorRule | BlockquoteElement | ButtonElement

  /**
   * What a render produces: the component, the `type` prop of a title ("title"/"subtitle"), the
   * `mode` prop when one is passed, whether the update callback is wired, and the separator's class.
   */
  datatype Rendered = Rendered(
    component: Component,
    heading: Option<string>,
    mode: Option<Mode>,
    onUpdate: bool,
    className: Option<string>)

  /** `!el.content` is false: the content is present and not empty. */
  predicate HasContent(el: CanvasElement) {
    el.content.Some? && el.content.value != ""
  }

  /**
   * `options.length < 2` with JavaScript's comparison: `null` and booleans count as 0 or 1, a
   * missing `length` compares false. A string, array or object `length` also compares false
   * here, although JavaScript would first convert it to a number.
   */
  predicate LengthBelowTwo(options: Value) {
    match Prop(options, "length")
    case Some(Num(n)) => n < 2
    case Some(Null) => true
    case Some(Bool(_)) => true
    case _ => false
  }

  /** A view-mode poll needs a question and at least two options. */
  predicate PollViewable(el: CanvasElement) {
    var options := Prop(el.props, "options");
    HasContent(el) && Present(options) && !LengthBelowTwo(options.value)
  }

  function Plain(c: Component, m: Mode, onUpdate: bool): Rendered {
    Rendered(c, None, Some(m), onUpdate, None)
  }

  /** `renderElement(el, onUpdate, mode)`; `None` is the `null` it returns. The mode defaults to edit. */
  function RenderElement(el: CanvasElement, hasOnUpdate: bool, mode: Mode := Edit): (r: Option<Rendered>)
    ensures el.typ == Voting || el.typ == Spacer ==> r.None?
    ensures el.typ == Separator ==> r == Some(Rendered(SeparatorRule, None, None, false, Some(SeparatorStyle)))
    ensures mode == Edit ==> (r.Some? <==> el.typ != Voting && el.typ != Spacer)
    ensures mode == Edit && r.Some? && el.typ != Separator ==> r.value.onUpdate == hasOnUpdate
    ensures mode == View && r.Some? ==> !r.value.onUpdate
    ensures mode == View && (el.typ == Image || el.typ == Code || el.typ == Embed) ==> (r.Some? <==> HasContent(el))
    ensures mode == View && el.typ == Poll ==> (r.Some? <==> PollViewable(el))
    ensures mode == View && el.typ in {Title, Subtitle, Text, Accordion, Checklist, Timeline, Tabs, Callout, Blockquote, Button}
      ==> r.Some?
  {
    match mode
    case View =>
      (match el.typ
       case Title => Some(Rendered(TitleElement, Some("title"), Some(View), false, None))
       case Subtitle => Some(Rendered(TitleElement, Some("subtitle"), Some(View), false, None))
       case Text => Some(Plain(TextElement, View, false))
       case Accordion => Some(Plain(AccordionElement, View, false))
       case Checklist => Some(Plain(ChecklistElement, View, false))
       case Timeline => Some(Plain(TimelineElement, View, false))
       case Tabs => Some(Plain(TabsElement, View, false))
       case Image => if !HasContent(el) then None else Some(Rendered(ImageElement, None, None, false, None))
       case Poll => if !PollViewable(el) then None else Some(Plain(PollElement, View, false))
       case Code => if !HasContent(el) then None else Some(Plain(CodeElement, View, false))
       case Callout => Some(Plain(CalloutElement, View, false))
       case Embed => if !HasContent(el) then None else Some(Plain(EmbedElement, View, false))
       case Separator => Some(Rendered(SeparatorRule, None, None, false, Some(SeparatorStyle)))
       case Blockquote => Some(Plain(BlockquoteElement, View, false))
       case Button => Some(Plain(ButtonElement, View, false))
       case _ => None)
    case Edit =>
      (match el.typ
       case Title => Some(Rendered(TitleElement, Some("title"), Some(Edit), hasOnUpdate, None))
       case Subtitle => Some(Rendered(TitleElement, Some("subtitle"), Some(Edit), hasOnUpdate, None))
       case Text => Some(Plain(TextElement, Edit, hasOnUpdate))
       case Accordion => Some(Plain(AccordionElement, Edit, hasOnUpdate))
       case Checklist => Some(Plain(ChecklistElement, Edit, hasOnUpdate))
       case Timeline => Some(Plain(TimelineElement, Edit, hasOnUpdate))
       case Tabs => Some(Plain(TabsElement, Edit, hasOnUpdate))
       case Image => Some(Rendered(ImageElement, None, None, hasOnUpdate, None))
       case Poll => Some(Plain(PollElement, Edit, hasOnUpdate))
       case Code => Some(Plain(CodeElement, Edit, hasOnUpdate))
       case Callout => Some(Plain(CalloutElement, Edit, hasOnUpdate))
       case Embed => Some(Plain(EmbedElement, Edit, hasOnUpdate))
       case Separator => Some(Rendered(SeparatorRule, None, None, false, Some(SeparatorStyle)))
       case Blockquote => Some(Plain(BlockquoteElement, Edit, hasOnUpdate))
       case Button => Some(Plain(ButtonElement, Edit, hasOnUpdate))
       case _ => None)
  }

  /**
   * The two switches agree: whenever view mode renders an element, it mounts the same component
   * as edit mode, with the callback dropped and the mode prop switched to view.
   */
  lemma ViewIsEditWithoutCallback(el: CanvasElement, hasOnUpdate: bool)
    requires RenderElement(el, hasOnUpdate, View).Some?
    ensures
      var e := RenderElement(el, hasOnUpdate, Edit).value;
      RenderElement(el, hasOnUpdate, View).value
        == e.(onUpdate := false, mode := if e.mode.Some? then Some(View) else None)
  {
  }

  /** Every block the palette can create renders in edit mode. */
  lemma PaletteRendersInEdit(k: string, el: CanvasElement, hasOnUpdate: bool)
    requires IsPaletteKey(k) && ParseTag(k) == Some(el.typ)
    ensures RenderElement(el, hasOnUpdate).Some?
  {
    PaletteKeyIsTag(k);
  }
}
