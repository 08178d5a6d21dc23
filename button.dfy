/**
 * The button block: a label (the element's `content`), a link, a variant, an alignment and an
 * optional custom colour. The view renders nothing without a label and otherwise derives an inline
 * style from the colour and the variant; the editor changes one field at a time.
 */
module Button {
  import opened Base
  import opened Json
  import opened Types
  import Builder

  /** `element.content || ""`. */
  function Label(content: Option<string>): (r: string)
    ensures content.Some? ==> r == content.value
    ensures content.None? ==> r == ""
  {
    content.GetOr("")
  }

  /** `element.props?.[key] || dflt`. */
  function PropOr(props: Value, key: string, dflt: string): (r: Value)
    ensures Present(Prop(props, key)) ==> Some(r) == Prop(props, key)
    ensures !Present(Prop(props, key)) ==> r == Str(dflt)
  {
    var v := Prop(props, key);
    if Present(v) then v.value else Str(dflt)
  }

  function Url(props: Value): Value { PropOr(props, "url", "") }
  function Variant(props: Value): Value { PropOr(props, "variant", "default") }
  function AlignOf(props: Value): Value { PropOr(props, "align", "start") }

  /** The inline style of the rendered button; an absent field is not set. */
  datatype Style = Style(backgroundColor: Option<Value>, color: Option<Value>,
                         boxShadow: Option<string>, borderColor: Option<Value>)

  const EmptyStyle: Style := Style(None, None, None, None)
  const White: Value := Str("#ffffff")

  /** The variants the editor offers. */
  const Variants: set<Value> := {Str("default"), Str("outline"), Str("secondary"), Str("ghost"), Str("link")}

  /** `0 10px 15px -3px ${customColor}40`: the colour with a 25% alpha suffix. */
  function Shadow(customColor: Value): string {
    "0 10px 15px -3px " + ToJsString(customColor) + "40"
  }

  /**
   * The inline style for a custom colour and a variant. Without a colour, and for a variant the
   * editor does not offer, nothing is set. With one, every known variant takes the colour for its
   * text, except the two solid ones, which take it for their background and put white text on it;
   * only the outline variant colours its border and only the default one casts a shadow.
   */
  function StyleFor(customColor: Option<Value>, variant: Value): (r: Style)
    ensures !Present(customColor) || variant !in Variants ==> r == EmptyStyle
    ensures Present(customColor) && variant in Variants ==> r.color.Some?
    ensures r.backgroundColor.Some? <==>
              Present(customColor) && (variant == Str("default") || variant == Str("secondary"))
    ensures r.backgroundColor.Some? ==> r.backgroundColor == customColor && r.color == Some(White)
    ensures r.backgroundColor.None? && r.color.Some? ==> r.color == customColor
    ensures r.borderColor.Some? <==> Present(customColor) && variant == Str("outline")
    ensures r.borderColor.Some? ==> r.borderColor == customColor
    ensures r.boxShadow.Some? <==> Present(customColor) && variant == Str("default")
    ensures r.boxShadow.Some? ==> r.boxShadow == Some(Shadow(customColor.value))
  {
    if !Present(customColor) then EmptyStyle
    else
      var c := customColor.value;
      if variant == Str("default") then Style(Some(c), Some(White), Some(Shadow(c)), None)
      else if variant == Str("outline") then Style(None, Some(c), None, Some(c))
      else if variant == Str("secondary") then Style(Some(c), Some(White), None, None)
      else if variant == Str("ghost") || variant == Str("link") then Style(None, Some(c), None, None)
      else EmptyStyle
  }

  /** The view's style object, filled field by field as the view does. */
  method InlineStyle(customColor: Option<Value>, variant: Value) returns (style: Style)
    ensures style == StyleFor(customColor, variant)
  {
    style := EmptyStyle;
    if Present(customColor) {
      var c := customColor.value;
      if variant == Str("default") {
        style := style.(backgroundColor := Some(c));
        style := style.(color := Some(White));
        style := style.(boxShadow := Some(Shadow(c)));
      } else if variant == Str("outline") {
        style := style.(borderColor := Some(c));
        style := style.(color := Some(c));
      } else if variant == Str("secondary") {
        style := style.(backgroundColor := Some(c));
        style := style.(color := Some(White));
      } else if variant == Str("ghost") || variant == Str("link") {
        style := style.(color := Some(c));
      }
    }
  }

  const BaseClasses: string := "rounded-md transition-all duration-300 transform hover:scale-105"

  /** The fallback look of a variant: one class string per known variant, none for anything else. */
  function VariantLook(variant: Value): (r: Option<string>)
    ensures r.Some? <==> variant == Str("default") || variant == Str("secondary") || variant == Str("outline")
  {
    if variant == Str("default") then Some("bg-indigo-600 hover:bg-indigo-700 text-white shadow-lg shadow-indigo-500/20")
    else if variant == Str("secondary") then Some("bg-zinc-800 hover:bg-zinc-700 text-zinc-200")
    else if variant == Str("outline") then Some("border-zinc-700 text-zinc-300 hover:border-zinc-600 hover:bg-zinc-900")
    else None
  }

  /** The class list handed to the class-name merger: fallback looks apply only without a custom colour. */
  function ButtonClasses(customColor: Option<Value>, variant: Value): (r: seq<string>)
    ensures |r| >= 1 && r[0] == BaseClasses
    ensures Present(customColor) ==> r == [BaseClasses]
    ensures |r| == 2 <==> !Present(customColor) && VariantLook(variant).Some?
    ensures |r| == 2 ==> r[1] == VariantLook(variant).value
  {
    var look := VariantLook(variant);
    if Present(customColor) || look.None? then [BaseClasses] else [BaseClasses, look.value]
  }

  /** The justification class of the wrapper: one per known alignment, none for anything else. */
  function JustifyClass(align: Value): (r: Option<string>)
    ensures r.Some? <==> align in {Str("start"), Str("center"), Str("end")}
  {
    if align == Str("center") then Some("justify-center")
    else if align == Str("end") then Some("justify-end")
    else if align == Str("start") then Some("justify-start")
    else None
  }

  /** What the view renders: the link, its label, the look, and whether the external-link icon shows. */
  datatype Rendered = Rendered(text: string, href: Value, variant: Value, justify: Option<string>,
                               style: Style, classes: seq<string>, icon: bool)

  /**
   * The view of a button block: nothing without a label; otherwise a link to the url with the
   * label as text, styled from the colour and the variant, with the external-link icon for every
   * variant but "link".
   */
  function View(el: CanvasElement): (r: Option<Rendered>)
    ensures r.None? <==> Label(el.content) == ""
    ensures r.Some? ==> r.value.text == Label(el.content) && r.value.href == Url(el.props)
    ensures r.Some? ==> (r.value.icon <==> Variant(el.props) != Str("link"))
    ensures r.Some? ==> r.value.variant == Variant(el.props)
    ensures r.Some? ==> r.value.style == StyleFor(Prop(el.props, "color"), Variant(el.props))
    ensures r.Some? ==> r.value.classes == ButtonClasses(Prop(el.props, "color"), Variant(el.props))
    ensures r.Some? ==> r.value.justify == JustifyClass(AlignOf(el.props))
    ensures r.Some? && !Present(Prop(el.props, "color")) ==> r.value.style == EmptyStyle
    ensures r.Some? && !Present(Prop(el.props, "align")) ==> r.value.justify == Some("justify-start")
  {
    var text := Label(el.content);
    if text == "" then None
    else
      var variant := Variant(el.props);
      var customColor := Prop(el.props, "color");
      Some(Rendered(text, Url(el.props), variant, JustifyClass(AlignOf(el.props)),
                    StyleFor(customColor, variant), ButtonClasses(customColor, variant),
                    variant != Str("link")))
  }

  /** A button with no props at all renders as a solid indigo button aligned to the start. */
  lemma DefaultLook(el: CanvasElement)
    requires el.props == Obj(map[]) && Label(el.content) != ""
    ensures View(el).Some?
    ensures View(el).value.style == EmptyStyle
    ensures View(el).value.justify == Some("justify-start") && View(el).value.icon
    ensures View(el).value.classes[1] == "bg-indigo-600 hover:bg-indigo-700 text-white shadow-lg shadow-indigo-500/20"
  {
    assert Prop(el.props, "color") == None && Prop(el.props, "align") == None;
    assert Variant(el.props) == Str("default") && AlignOf(el.props) == Str("start");
  }

  // ---------------------------------------------------------------- edit handlers

  /** The alignment toggle: pressing the active button again (an empty value) sends nothing. */
  function AlignPatch(el: CanvasElement, val: string): (r: Option<Builder.Patch>)
    ensures r.None? <==> val == ""
    ensures r.Some? ==> r.value.content.None? && r.value.props.Some?
  {
    if val == "" then None else Some(PropsPatch(el, "align", Str(val)))
  }

  /** `{ props: { ...element.props, [key]: x } }`. */
  function PropsPatch(el: CanvasElement, key: string, x: Value): (r: Builder.Patch)
    ensures r.id.None? && r.typ.None? && r.content.None? && r.props.Some?
    ensures Prop(r.props.value, key) == Some(x)
    ensures el.props.Obj? ==> forall k :: k != key ==> Prop(r.props.value, k) == Prop(el.props, k)
  {
    Builder.Patch(None, None, Some(Set(el.props, key, x)), None)
  }

  /** The label field sends `{ content }` and leaves the props alone. */
  function LabelPatch(text: string): (r: Builder.Patch)
    ensures r.props.None? && r.content == Some(text)
  {
    Builder.Patch(None, None, None, Some(text))
  }

  /** The url field, the variant select and a colour swatch each replace one key of the props. */
  function UrlPatch(el: CanvasElement, url: string): Builder.Patch { PropsPatch(el, "url", Str(url)) }
  function VariantPatch(el: CanvasElement, v: string): Builder.Patch { PropsPatch(el, "variant", Str(v)) }
  function ColorPatch(el: CanvasElement, colorValue: string): Builder.Patch { PropsPatch(el, "color", Str(colorValue)) }

  /**
   * Each edit is what the view then shows: a typed label and url, a chosen variant, alignment and
   * colour are read back unchanged once the patch is merged into the element, and the other
   * fields the view reads keep their values.
   */
  lemma EditsReadBack(el: CanvasElement, text: string, val: string, colorValue: string)
    requires el.props.Obj?
    ensures Label(Builder.Merge(el, LabelPatch(text)).content) == text
    ensures Builder.Merge(el, LabelPatch(text)).props == el.props
    ensures val != "" ==> Url(Builder.Merge(el, UrlPatch(el, val)).props) == Str(val)
    ensures val != "" ==> Variant(Builder.Merge(el, VariantPatch(el, val)).props) == Str(val)
    ensures val != "" ==> AlignOf(Builder.Merge(el, AlignPatch(el, val).value).props) == Str(val)
    ensures Prop(Builder.Merge(el, ColorPatch(el, colorValue)).props, "color") == Some(Str(colorValue))
    ensures Url(Builder.Merge(el, ColorPatch(el, colorValue)).props) == Url(el.props)
    ensures Variant(Builder.Merge(el, ColorPatch(el, colorValue)).props) == Variant(el.props)
    ensures Label(Builder.Merge(el, ColorPatch(el, colorValue)).content) == Label(el.content)
  {
  }
}
