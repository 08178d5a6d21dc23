/**
 * The timeline block: events `{ id, date, title, description }` under `props.events`, drawn in the
 * block's colour with an indigo fallback.
 */
module Timeline {
  import opened Base
  import opened Json
  import opened ListItems
  import opened Colors

  const EventsKey: string := "events"

  function EventItem(id: string, date: string, title: string, description: string): Value {
    Obj(map["id" := Str(id), "date" := Str(date), "title" := Str(title), "description" := Str(description)])
  }

  /** A single placeholder event. */
  const DefaultEvents: seq<Value> := [EventItem("1", "2024", "Evento 1", "Descrição do evento 1")]

  /** `element.props?.events || [default]`. */
  function Events(props: Value): (r: seq<Value>)
    requires Shaped(props, EventsKey)
    ensures AllObjects(r)
    ensures !Present(Prop(props, EventsKey)) ==> r == DefaultEvents && |r| == 1
  {
    Items(props, EventsKey, DefaultEvents)
  }

  /** `handleAddEvent`: a "Nova Data" / "Novo Evento" event with no description appended. */
  function AddEvent(props: Value, freshId: string): (r: Value)
    requires Shaped(props, EventsKey)
    ensures Shaped(r, EventsKey)
    ensures Events(r) == Events(props) + [EventItem(freshId, "Nova Data", "Novo Evento", "")]
    ensures !ShowsDescription(Events(r)[|Events(r)| - 1])
    ensures props.Obj? ==> forall k :: k != EventsKey ==> Prop(r, k) == Prop(props, k)
  {
    AddItem(props, EventsKey, DefaultEvents, EventItem(freshId, "Nova Data", "Novo Evento", ""))
  }

  /** `handleRemoveEvent`: the events with that id go. */
  function RemoveEvent(props: Value, id: string): (r: Value)
    requires Shaped(props, EventsKey)
    ensures Shaped(r, EventsKey)
    ensures Events(r) == Without(Events(props), id)
    ensures props.Obj? ==> forall k :: k != EventsKey ==> Prop(r, k) == Prop(props, k)
  {
    RemoveItem(props, EventsKey, DefaultEvents, id)
  }

  /** `keyof TimelineEvent`: the fields an event update may name. */
  datatype EventField = Id | Date | Title | Description {
    function Name(): string {
      match this
      case Id => "id"
      case Date => "date"
      case Title => "title"
      case Description => "description"
    }
  }

  /** `handleUpdateEvent`: only the named field of the matching events changes. */
  function UpdateEvent(props: Value, id: string, field: EventField, value: string): (r: Value)
    requires Shaped(props, EventsKey)
    ensures Shaped(r, EventsKey)
    ensures Events(r) == Updated(Events(props), id, field.Name(), Str(value))
    ensures field != Id ==> forall i :: 0 <= i < |Events(r)| ==> Prop(Events(r)[i], "id") == Prop(Events(props)[i], "id")
    ensures props.Obj? ==> forall k :: k != EventsKey ==> Prop(r, k) == Prop(props, k)
  {
    UpdatedKeepsIds(Events(props), id, field.Name(), Str(value));
    UpdateItem(props, EventsKey, DefaultEvents, id, field.Name(), Str(value))
  }

  /** The remove button is enabled only while more than one event remains. */
  predicate CanRemove(events: seq<Value>) {
    |events| > 1
  }

  /** `event.description && (...)`: the description paragraph appears only for a non-empty one. */
  predicate ShowsDescription(event: Value) {
    Present(Prop(event, "description"))
  }

  /** In view mode a timeline renders nothing exactly when its stored list is empty. */
  lemma ViewEmpty(props: Value)
    requires Shaped(props, EventsKey)
    ensures |Events(props)| == 0 <==> Prop(props, EventsKey) == Some(Arr([]))
  {
    assert RendersNothing(props, EventsKey, DefaultEvents) == (|Events(props)| == 0);
  }

  /** The dot's background: the colour's class, or indigo when the colour is unknown or has none. */
  function DotClass(colors: seq<Color>, props: Value): (r: string)
    ensures ByValue(colors, ColorValue(props, "#6366f1")).None? ==> r == "bg-indigo-500"
    ensures var c := ByValue(colors, ColorValue(props, "#6366f1"));
      c.Some? ==> r == (if c.value.tailwind != "" then c.value.tailwind else "bg-indigo-500")
    ensures r == "bg-indigo-500" || exists i :: 0 <= i < |colors| && r == colors[i].tailwind
  {
    var c := ByValue(colors, ColorValue(props, "#6366f1"));
    OrDefault(if c.Some? then Some(c.value.tailwind) else None, "bg-indigo-500")
  }

  /** The date's text colour: the colour's class, or indigo when the colour is unknown or has none. */
  function DateClass(colors: seq<Color>, props: Value): (r: string)
    ensures ByValue(colors, ColorValue(props, "#6366f1")).None? ==> r == "text-indigo-400"
    ensures var c := ByValue(colors, ColorValue(props, "#6366f1"));
      c.Some? ==> r == (if c.value.text != "" then c.value.text else "text-indigo-400")
    ensures r == "text-indigo-400" || exists i :: 0 <= i < |colors| && r == colors[i].text
  {
    var c := ByValue(colors, ColorValue(props, "#6366f1"));
    OrDefault(if c.Some? then Some(c.value.text) else None, "text-indigo-400")
  }
}
