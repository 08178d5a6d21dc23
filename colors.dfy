/**
 * The colour table the block editors look colours up in. Its entries are not part of this model,
 * so every lookup takes the table as a parameter; only the four fields the editors read are kept.
 */
module Colors {
  import opened Base
  import opened Json

  datatype Color = Color(value: string, tailwind: string, border: string, text: string)

  /** `colors.find(p)`: the first entry satisfying `p`, or `undefined`. */
  function Find(colors: seq<Color>, p: Color -> bool): (r: Option<Color>)
    ensures r.Some? ==> r.value in colors && p(r.value)
    ensures r.None? <==> forall i :: 0 <= i < |colors| ==> !p(colors[i])
    ensures r.Some? ==> exists i :: 0 <= i < |colors| && colors[i] == r.value
                                     && forall j :: 0 <= j < i ==> !p(colors[j])
  {
    if colors == [] then None
    else if p(colors[0]) then Some(colors[0])
    else
      var r := Find(colors[1..], p);
      assert r.Some? ==> exists i :: 0 <= i < |colors[1..]| && colors[1..][i] == r.value
                                     && forall j :: 0 <= j < i ==> !p(colors[1..][j]);
      if r.Some? then
        var i :| 0 <= i < |colors[1..]| && colors[1..][i] == r.value && forall j :: 0 <= j < i ==> !p(colors[1..][j]);
        assert colors[i + 1] == r.value && forall j :: 0 <= j < i + 1 ==> !p(colors[j]);
        r
      else r
  }

  /** `props?.color || dflt`. */
  function ColorValue(props: Value, dflt: string): (r: Value)
    ensures Present(Prop(props, "color")) ==> r == Prop(props, "color").value
    ensures !Present(Prop(props, "color")) ==> r == Str(dflt)
  {
    var c := Prop(props, "color");
    if Present(c) then c.value else Str(dflt)
  }

  /** `colors.find((c) => c.value === colorValue)`. */
  function ByValue(colors: seq<Color>, colorValue: Value): (r: Option<Color>)
    ensures r.Some? ==> r.value in colors && Str(r.value.value) == colorValue
    ensures r.None? <==> forall i :: 0 <= i < |colors| ==> Str(colors[i].value) != colorValue
    ensures r.Some? ==> exists i :: 0 <= i < |colors| && colors[i] == r.value
                                     && forall j :: 0 <= j < i ==> Str(colors[j].value) != colorValue
  {
    Find(colors, (c: Color) => Str(c.value) == colorValue)
  }

  /** `field || dflt` for a string field read through `activeColor?.`: an empty class falls back too. */
  function OrDefault(s: Option<string>, dflt: string): (r: string)
    ensures s.Some? && s.value != "" ==> r == s.value
    ensures s.None? || s.value == "" ==> r == dflt
  {
    if s.Some? && s.value != "" then s.value else dflt
  }
}
