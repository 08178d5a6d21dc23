/**
 * The text block: a markdown body edited in a textarea, three toolbar buttons that wrap the
 * selection in markers, and the pre-processing the view applies before handing the text to the
 * markdown renderer (double backslashes become line breaks, `>text<` becomes a highlight span).
 */
module TextElement {
  import opened Base
  import opened Json

  datatype Format = Bold | Italic | Highlight {
    /** The marker put before the selection. */
    function Open(): string {
      match this
      case Bold => "**"
      case Italic => "_"
      case Highlight => ">"
    }
    /** The marker put after the selection. */
    function Close(): string {
      match this
      case Bold => "**"
      case Italic => "_"
      case Highlight => "<"
    }
  }

  function Clamp(i: int, n: nat): (r: nat)
    ensures r <= n
    ensures 0 <= i <= n ==> r == i
  {
    if i < 0 then 0 else if i > n then n else i
  }

  /** `s.substring(a, b)`: both ends clamped to the string, swapped when `a > b`. */
  function Substring(s: string, a: int, b: int): (r: string)
    ensures 0 <= a <= b <= |s| ==> r == s[a..b]
  {
    var x := Clamp(a, |s|);
    var y := Clamp(b, |s|);
    if x <= y then s[x..y] else s[y..x]
  }

  /** What a formatting click sends back, and the selection it restores afterwards. */
  datatype FormatEdit = FormatEdit(content: string, selectionStart: int, selectionEnd: int)

  /**
   * `insertFormat(format)` with the textarea's selection `[start, end)`: nothing happens without a
   * mounted textarea or an update callback; otherwise the selection is wrapped in the format's
   * markers and the selection is moved past the opening marker.
   */
  function InsertFormat(content: Option<string>, start: int, end: int, format: Format,
                        hasTextarea: bool, hasOnUpdate: bool): (r: Option<FormatEdit>)
    ensures r.Some? <==> hasTextarea && hasOnUpdate
  {
    if !hasTextarea || !hasOnUpdate then None
    else
      var text := content.GetOr("");
      var before := Substring(text, 0, start);
      var selection := Substring(text, start, end);
      var after := Substring(text, end, |text|);
      var newText := before + format.Open() + selection + format.Close() + after;
      var offset := if format == Bold then 2 else 1;
      Some(FormatEdit(newText, start + offset, end + offset))
  }

  /**
   * For a selection inside the text (as a textarea reports it), formatting wraps exactly the
   * selected text, keeps what is around it, grows the text by 4 for bold and 2 otherwise, and the
   * restored selection covers the same text as before, now between the markers.
   */
  lemma FormatWrapsSelection(content: Option<string>, start: nat, end: nat, format: Format)
    requires end <= |content.GetOr("")| && start <= end
    ensures var text := content.GetOr("");
      var e := InsertFormat(content, start, end, format, true, true).value;
      && e.content == text[..start] + format.Open() + text[start..end] + format.Close() + text[end..]
      && |e.content| == |text| + (if format == Bold then 4 else 2)
      && e.selectionStart == start + |format.Open()| && e.selectionEnd == end + |format.Open()|
      && e.content[e.selectionStart..e.selectionEnd] == text[start..end]
      && e.content[..start] == text[..start]
      && e.content[e.selectionEnd + |format.Close()|..] == text[end..]
  {
    var text := content.GetOr("");
    var e := InsertFormat(content, start, end, format, true, true).value;
    var o := format.Open();
    var c := format.Close();
    assert |o| == |c| == (if format == Bold then 2 else 1);
    assert e.content == text[..start] + o + text[start..end] + c + text[end..];
    WrappedPieces(text[..start], o, text[start..end], c, text[end..]);
  }

  /** The pieces of a wrapped selection can be read back at their offsets. */
  lemma WrappedPieces(a: string, o: string, b: string, c: string, d: string)
    ensures var w := a + o + b + c + d;
      && |w| == |a| + |o| + |b| + |c| + |d|
      && w[..|a|] == a
      && w[|a| + |o|..|a| + |o| + |b|] == b
      && w[|a| + |o| + |b| + |c|..] == d
  {
    var w := a + o + b + c + d;
    assert w == (a + o) + b + (c + d);
    assert w[..|a|] == a;
  }

  /** The alignment toggle: an empty value (the active button pressed again) changes nothing. */
  function SetAlign(props: Value, val: string): (r: Option<Value>)
    ensures val == "" <==> r.None?
    ensures r.Some? ==> Prop(r.value, "align") == Some(Str(val))
    ensures r.Some? && props.Obj? ==> forall k :: k != "align" ==> Prop(r.value, k) == Prop(props, k)
  {
    if val == "" then None else Some(Set(props, "align", Str(val)))
  }

  /** `props?.align || "left"`. */
  function Align(props: Value): (r: Value)
    ensures !Present(Prop(props, "align")) ==> r == Str("left")
    ensures Present(Prop(props, "align")) ==> Some(r) == Prop(props, "align")
  {
    var a := Prop(props, "align");
    if Present(a) then a.value else Str("left")
  }

  /** The class the view adds for an alignment; "left" and anything unknown add none. */
  function AlignClass(align: Value): (r: Option<string>)
    ensures r.Some? <==> align in {Str("center"), Str("right"), Str("justify")}
  {
    if align == Str("center") then Some("text-center")
    else if align == Str("right") then Some("text-right")
    else if align == Str("justify") then Some("text-justify")
    else None
  }

  datatype HighlightColor = HighlightColor(name: string, value: string, classes: string, preview: string)

  /** The eight highlight colours, Indigo first. */
  const HighlightColors: seq<HighlightColor> := [
    HighlightColor("Indigo", "indigo", "bg-indigo-500/20 text-indigo-300", "bg-indigo-500"),
    HighlightColor("Red", "red", "bg-red-500/20 text-red-300", "bg-red-500"),
    HighlightColor("Orange", "orange", "bg-orange-500/20 text-orange-300", "bg-orange-500"),
    HighlightColor("Yellow", "yellow", "bg-yellow-500/20 text-yellow-300", "bg-yellow-500"),
    HighlightColor("Green", "green", "bg-green-500/20 text-green-300", "bg-green-500"),
    HighlightColor("Blue", "blue", "bg-blue-500/20 text-blue-300", "bg-blue-500"),
    HighlightColor("Purple", "purple", "bg-purple-500/20 text-purple-300", "bg-purple-500"),
    HighlightColor("Pink", "pink", "bg-pink-500/20 text-pink-300", "bg-pink-500")
  ]

  /** `props?.highlightColor || "indigo"`. */
  function HighlightSetting(props: Value): (r: Value)
    ensures !Present(Prop(props, "highlightColor")) ==> r == Str("indigo")
    ensures Present(Prop(props, "highlightColor")) ==> Some(r) == Prop(props, "highlightColor")
  {
    var h := Prop(props, "highlightColor");
    if Present(h) then h.value else Str("indigo")
  }

  /** A colour-picker click: `{ ...props, highlightColor: c.value }`. */
  function SetHighlightColor(props: Value, c: HighlightColor): (r: Value)
    requires c in HighlightColors
    ensures HighlightFor(HighlightSetting(r)) == c
    ensures props.Obj? ==> forall k :: k != "highlightColor" ==> Prop(r, k) == Prop(props, k)
  {
    HighlightColorsDistinct();
    Set(props, "highlightColor", Str(c.value))
  }

  lemma HighlightColorsDistinct()
    ensures forall i, j :: 0 <= i < j < |HighlightColors| ==> HighlightColors[i].value != HighlightColors[j].value
  {
  }

  /** The first colour of `colors` from index `i` on whose value is `setting`. */
  function FindHighlight(colors: seq<HighlightColor>, setting: Value, i: nat): (r: Option<HighlightColor>)
    requires i <= |colors|
    ensures r.Some? ==> r.value in colors[i..] && Str(r.value.value) == setting
    ensures r.None? ==> forall j :: i <= j < |colors| ==> Str(colors[j].value) != setting
    decreases |colors| - i
  {
    if i == |colors| then None
    else if Str(colors[i].value) == setting then Some(colors[i])
    else FindHighlight(colors, setting, i + 1)
  }

  /** The colour values in table order. */
  const HighlightValues: seq<string> := ["indigo", "red", "orange", "yellow", "green", "blue", "purple", "pink"]

  lemma HighlightValuesListed()
    ensures |HighlightColors| == |HighlightValues|
    ensures forall j :: 0 <= j < |HighlightColors| ==> HighlightColors[j].value == HighlightValues[j]
    ensures HighlightColors[0].name == "Indigo"
  {
  }

  /** `HIGHLIGHT_COLORS.find((c) => c.value === highlightColor) || HIGHLIGHT_COLORS[0]`. */
  function HighlightFor(setting: Value): (r: HighlightColor)
    ensures r in HighlightColors
    ensures (forall j :: 0 <= j < |HighlightColors| ==> Str(HighlightColors[j].value) != setting) ==> r == HighlightColors[0]
    ensures (exists j :: 0 <= j < |HighlightColors| && Str(HighlightColors[j].value) == setting) ==> Str(r.value) == setting
  {
    match FindHighlight(HighlightColors, setting, 0)
    case Some(c) => c
    case None => HighlightColors[0]
  }

  /** An unknown highlight colour falls back to Indigo. */
  lemma UnknownHighlightIsIndigo(setting: Value)
    requires setting !in {Str("indigo"), Str("red"), Str("orange"), Str("yellow"), Str("green"), Str("blue"), Str("purple"), Str("pink")}
    ensures HighlightFor(setting).name == "Indigo"
  {
    HighlightValuesListed();
    assert forall j :: 0 <= j < |HighlightValues| ==> Str(HighlightValues[j]) != setting;
  }

  const Break: string := "<br/>"

  /** `s.replace(/\\\\/g, "<br/>")`: each pair of backslashes, scanned left to right, becomes a break. */
  function ReplaceBreaks(s: string): (r: string)
    ensures s != [] && !PairAt(s, 0) ==> r != [] && r[0] == s[0]
  {
    if PairAt(s, 0) then Break + ReplaceBreaks(s[2..])
    else if s == [] then []
    else [s[0]] + ReplaceBreaks(s[1..])
  }

  /** Two backslashes at `i` and `i + 1`. */
  predicate PairAt(s: string, i: int) {
    0 <= i < |s| - 1 && s[i] == '\\' && s[i + 1] == '\\'
  }

  ghost predicate HasPair(s: string) {
    exists i :: PairAt(s, i)
  }

  /** A `<br/>` tag starting at `i`. */
  predicate BreakAt(s: string, i: int) {
    0 <= i <= |s| - |Break| && s[i..i + |Break|] == Break
  }

  ghost predicate HasBreak(s: string) {
    exists i :: BreakAt(s, i)
  }

  /** After the replacement no two backslashes are adjacent: every pair was turned into a break. */
  lemma {:induction false} ReplaceBreaksLeavesNoPair(s: string)
    ensures !HasPair(ReplaceBreaks(s))
  {
    if PairAt(s, 0) {
      ReplaceBreaksLeavesNoPair(s[2..]);
      var r := ReplaceBreaks(s[2..]);
      var t := Break + r;
      forall i ensures !PairAt(t, i) {
        if |Break| <= i {
          assert PairAt(t, i) ==> PairAt(r, i - |Break|);
        }
      }
    } else if s != [] {
      ReplaceBreaksLeavesNoPair(s[1..]);
      var r := ReplaceBreaks(s[1..]);
      var t := [s[0]] + r;
      forall i ensures !PairAt(t, i) {
        if i == 0 && |s| >= 2 {
          assert !PairAt(s[1..], 0) ==> r[0] == s[1];
          assert PairAt(s[1..], 0) ==> r[0] == '<';
        } else if i > 0 {
          assert PairAt(t, i) ==> PairAt(r, i - 1);
        }
      }
    }
  }

  /** Text with no backslash pair passes through the break replacement unchanged. */
  lemma {:induction false} ReplaceBreaksIdle(s: string)
    requires !HasPair(s)
    ensures ReplaceBreaks(s) == s
  {
    if s != [] {
      assert !PairAt(s, 0);
      forall i ensures !PairAt(s[1..], i) {
        assert PairAt(s[1..], i) ==> PairAt(s, i + 1);
      }
      ReplaceBreaksIdle(s[1..]);
    }
  }

  /** A backslash pair anywhere in the input yields a break in the output. */
  lemma {:induction false} PairYieldsBreak(s: string)
    requires HasPair(s)
    ensures HasBreak(ReplaceBreaks(s))
  {
    var i :| PairAt(s, i);
    var r := ReplaceBreaks(s);
    if PairAt(s, 0) {
      assert r == Break + ReplaceBreaks(s[2..]);
      assert BreakAt(r, 0);
    } else {
      assert PairAt(s[1..], i - 1);
      PairYieldsBreak(s[1..]);
      var r1 := ReplaceBreaks(s[1..]);
      var k :| BreakAt(r1, k);
      assert r == [s[0]] + r1;
      assert r[k + 1..k + 1 + |Break|] == r1[k..k + |Break|];
      assert BreakAt(r, k + 1);
    }
  }

  /** The span that replaces `>text<`, around the highlighted text. */
  function SpanOpen(c: HighlightColor): string {
    "<span class=\"" + c.classes + " font-semibold px-1 rounded\">"
  }

  const SpanClose: string := "</span>"

  /**
   * Where a highlight opened by `s[0] == '>'` closes, scanning from `j`: at the first `<`, line
   * feed or carriage return, when that character is a `<` and at least one character lies between.
   */
  function CloseAt(s: string, j: nat): (r: Option<nat>)
    requires 1 <= j <= |s|
    requires forall k :: 1 <= k < j ==> s[k] != '<' && s[k] != '\n' && s[k] != '\r'
    ensures r.Some? ==> 2 <= r.value < |s| && s[r.value] == '<'
                        && forall k :: 1 <= k < r.value ==> s[k] != '<' && s[k] != '\n' && s[k] != '\r'
    decreases |s| - j
  {
    if j == |s| then None
    else if s[j] == '<' then (if j >= 2 then Some(j) else None)
    else if s[j] == '\n' || s[j] == '\r' then None
    else CloseAt(s, j + 1)
  }

  /** `s.replace(/>([^<\n\r]+)</g, span)`: each match, found left to right, becomes a span. */
  function Highlighted(s: string, c: HighlightColor): (r: string)
    ensures s != [] && s[0] != '>' ==> r != [] && r[0] == s[0]
    decreases |s|
  {
    if s == [] then []
    else if s[0] == '>' && CloseAt(s, 1).Some? then
      var j := CloseAt(s, 1).value;
      SpanOpen(c) + s[1..j] + SpanClose + Highlighted(s[j + 1..], c)
    else
      [s[0]] + Highlighted(s[1..], c)
  }

  /** Text with no `>` has nothing to highlight. */
  lemma {:induction false} HighlightedIdle(s: string, c: HighlightColor)
    requires '>' !in s
    ensures Highlighted(s, c) == s
  {
    if s != [] {
      assert '>' !in s[1..];
      HighlightedIdle(s[1..], c);
    }
  }

  /**
   * `processContent(content)` as written: an empty text stays empty; otherwise breaks are
   * inserted first and highlights matched afterwards, over the text that now holds the breaks.
   */
  function ProcessContent(content: string, setting: Value): (r: string)
    ensures content == "" ==> r == ""
  {
    if content == "" then ""
    else Highlighted(ReplaceBreaks(content), HighlightFor(setting))
  }

  /** Text with neither a `>` nor a backslash pair is shown as it is. */
  lemma PlainTextUnchanged(content: string, setting: Value)
    requires '>' !in content && !HasPair(content)
    ensures ProcessContent(content, setting) == content
  {
    if content != "" {
      ReplaceBreaksIdle(content);
      HighlightedIdle(content, HighlightFor(setting));
    }
  }

  /**
   * A text that is one `>x<` highlight, with `x` free of backslashes, line breaks and `<`, shows `x`
   * in the span of the chosen colour.
   */
  lemma HighlightSpan(x: string, setting: Value)
    requires |x| >= 1 && '\\' !in x && '<' !in x && '\n' !in x && '\r' !in x
    ensures ProcessContent(">" + x + "<", setting) == SpanOpen(HighlightFor(setting)) + x + SpanClose
  {
    WrappedHasNoPair(x);
    ReplaceBreaksIdle(">" + x + "<");
    WrappedHighlight(x, HighlightFor(setting));
  }

  /** Backslash-free text between `>` and `<` holds no backslash pair. */
  lemma WrappedHasNoPair(x: string)
    requires '\\' !in x
    ensures !HasPair(">" + x + "<")
  {
    var s := ">" + x + "<";
    forall i | 1 <= i <= |x| ensures s[i] == x[i - 1] {
    }
  }

  /** Text between `>` and `<` with no stop inside is one match. */
  lemma WrappedHighlight(x: string, c: HighlightColor)
    requires |x| >= 1 && '<' !in x && '\n' !in x && '\r' !in x
    ensures Highlighted(">" + x + "<", c) == SpanOpen(c) + x + SpanClose
  {
    var s := ">" + x + "<";
    forall k | 1 <= k < |s| - 1 ensures s[k] != '<' && s[k] != '\n' && s[k] != '\r' {
      assert s[k] == x[k - 1];
    }
    CloseAtEnd(s, 1);
    MatchStep(s, c, |x| + 1);
    assert s[1..|x| + 1] == x && s[|x| + 2..] == [];
  }

  /** In a text whose only stop is a final `<`, the highlight closes there. */
  lemma {:induction false} CloseAtEnd(s: string, j: nat)
    requires 3 <= |s| && 1 <= j < |s| && s[|s| - 1] == '<'
    requires forall k :: 1 <= k < |s| - 1 ==> s[k] != '<' && s[k] != '\n' && s[k] != '\r'
    ensures CloseAt(s, j) == Some(|s| - 1)
    decreases |s| - j
  {
    if j < |s| - 1 {
      CloseAtEnd(s, j + 1);
    }
  }

  /**
   * The generated `<br/>` carries the `<` and `>` of the highlight syntax, so a `>` earlier on the
   * line is closed by the break, which is then shown as the text "br/>": "1 > 0", a line break,
   * "ok" comes out as a highlighted " 0" followed by "br/>ok".
   */
  lemma BreakLostAfterHighlightMarker(setting: Value)
    requires setting == Str("indigo")
    ensures HasPair("1 > 0\\\\ok")
    ensures ProcessContent("1 > 0\\\\ok", setting)
              == "1 " + (SpanOpen(HighlightColors[0]) + " 0" + SpanClose + "br/>ok")
    ensures ProcessContentFixed("1 > 0\\\\ok", setting) == "1 > 0<br/>ok"
  {
    assert PairAt("1 > 0\\\\ok", 5);
    var c := HighlightFor(setting);
    assert c == HighlightColors[0];
    AsWrittenExample(c);
    FixedExample(c);
  }

  lemma AsWrittenExample(c: HighlightColor)
    ensures Highlighted(ReplaceBreaks("1 > 0\\\\ok"), c) == "1 " + (SpanOpen(c) + " 0" + SpanClose + "br/>ok")
  {
    BreaksOfExample();
    HighlightOfLine(c);
  }

  lemma HighlightOfLine(c: HighlightColor)
    ensures Highlighted("1 " + "> 0<br/>ok", c) == "1 " + (SpanOpen(c) + " 0" + SpanClose + "br/>ok")
  {
    HighlightOfBroken(c);
    PlainSteps("1 ", "> 0<br/>ok", c);
  }

  lemma FixedExample(c: HighlightColor)
    ensures ReplaceBreaks(Highlighted("1 > 0\\\\ok", c)) == "1 > 0<br/>ok"
  {
    HighlightOfExample(c);
    BreaksOfExample();
  }

  lemma BreaksOfExample()
    ensures ReplaceBreaks("1 > 0\\\\ok") == "1 > 0<br/>ok" == "1 " + "> 0<br/>ok"
  {
    var s := "1 > 0\\\\ok";
    assert ReplaceBreaks(s[8..]) == "k";
    assert ReplaceBreaks(s[7..]) == "ok";
    assert ReplaceBreaks(s[5..]) == "<br/>ok";
  }

  lemma HighlightOfTail(c: HighlightColor)
    ensures Highlighted("br/>ok", c) == "br/>ok"
  {
    assert CloseAt(">ok", 1).None?;
    HighlightedIdle("ok", c);
    assert Highlighted(">ok", c) == ">ok";
    HighlightedIdle("br/", c);
    assert "br/>ok"[3..] == ">ok";
  }

  lemma CloseOfBroken()
    ensures CloseAt("> 0<br/>ok", 1) == Some(3)
  {
    var t := "> 0<br/>ok";
    assert CloseAt(t, 3) == Some(3);
    assert CloseAt(t, 2) == Some(3);
  }

  lemma HighlightOfBroken(c: HighlightColor)
    ensures Highlighted("> 0<br/>ok", c) == SpanOpen(c) + " 0" + SpanClose + "br/>ok"
  {
    var b := "1 > 0<br/>ok";
    var t := "> 0<br/>ok";
    CloseOfBroken();
    HighlightOfTail(c);
    MatchStep(t, c, 3);
    assert t[1..3] == " 0" && t[4..] == "br/>ok";
    var h := SpanOpen(c) + " 0" + SpanClose + "br/>ok";
    assert Highlighted(t, c) == h;
  }

  /** One unfolding of `Highlighted` at a matched `>`. */
  lemma MatchStep(s: string, c: HighlightColor, j: nat)
    requires s != [] && s[0] == '>' && CloseAt(s, 1) == Some(j)
    ensures Highlighted(s, c) == SpanOpen(c) + s[1..j] + SpanClose + Highlighted(s[j + 1..], c)
  {
  }

  /** Two leading characters that open no match are copied as they are. */
  lemma PlainSteps(p: string, t: string, c: HighlightColor)
    requires |p| == 2 && p[0] != '>' && p[1] != '>'
    ensures Highlighted(p + t, c) == p + Highlighted(t, c)
  {
    assert (p + t)[1..] == [p[1]] + t;
    assert ([p[1]] + t)[1..] == t;
  }

  lemma HighlightOfExample(c: HighlightColor)
    ensures Highlighted("1 > 0\\\\ok", c) == "1 > 0\\\\ok"
  {
    var s := "1 > 0\\\\ok";
    var t := s[2..];
    assert t == "> 0\\\\ok";
    assert CloseAt(t, 6).None?;
    assert CloseAt(t, 1).None?;
    HighlightedIdle(s[3..], c);
  }

  /** The break replacement run after the highlights, so no highlight can reach into a break. */
  function ProcessContentFixed(content: string, setting: Value): (r: string)
    ensures content == "" ==> r == ""
  {
    if content == "" then "" else ReplaceBreaks(Highlighted(content, HighlightFor(setting)))
  }

  /** Highlighting never separates two adjacent backslashes: the delimiters are `>` and `<`. */
  lemma {:induction false} HighlightKeepsPair(s: string, c: HighlightColor)
    requires HasPair(s)
    ensures HasPair(Highlighted(s, c))
    decreases |s|
  {
    var i :| PairAt(s, i);
    if s[0] == '>' && CloseAt(s, 1).Some? {
      var j := CloseAt(s, 1).value;
      if i + 1 < j {
        SpanKeepsPair(s, c, i, j);
      } else {
        assert PairAt(s[j + 1..], i - j - 1);
        HighlightKeepsPair(s[j + 1..], c);
        PairShifts(SpanOpen(c) + s[1..j] + SpanClose, Highlighted(s[j + 1..], c));
      }
    } else if i == 0 {
      assert s[1..] != [] && s[1..][0] != '>';
      assert PairAt(Highlighted(s, c), 0);
    } else {
      assert PairAt(s[1..], i - 1);
      HighlightKeepsPair(s[1..], c);
      PairShifts([s[0]], Highlighted(s[1..], c));
    }
  }

  /** A pair inside a matched highlight survives inside the span. */
  lemma SpanKeepsPair(s: string, c: HighlightColor, i: nat, j: nat)
    requires s != [] && s[0] == '>' && CloseAt(s, 1) == Some(j) && PairAt(s, i) && i + 1 < j
    ensures HasPair(Highlighted(s, c))
  {
    var inner := s[1..j];
    assert PairAt(inner, i - 1);
    var pre := SpanOpen(c) + inner;
    assert PairAt(pre, |SpanOpen(c)| + i - 1);
    PairPrefix(pre, SpanClose + Highlighted(s[j + 1..], c), |SpanOpen(c)| + i - 1);
    assert Highlighted(s, c) == pre + (SpanClose + Highlighted(s[j + 1..], c));
  }

  lemma PairPrefix(a: string, b: string, k: nat)
    requires PairAt(a, k)
    ensures PairAt(a + b, k)
  {
  }

  lemma PairShifts(a: string, b: string)
    requires HasPair(b)
    ensures HasPair(a + b)
  {
    var k :| PairAt(b, k);
    assert PairAt(a + b, |a| + k);
  }

  /**
   * With the order corrected a text holding a backslash pair shows a line break, and no backslash
   * pair is left over in what is shown.
   */
  lemma FixedKeepsBreaks(content: string, setting: Value)
    requires HasPair(content)
    ensures HasBreak(ProcessContentFixed(content, setting))
    ensures !HasPair(ProcessContentFixed(content, setting))
  {
    HighlightKeepsPair(content, HighlightFor(setting));
    PairYieldsBreak(Highlighted(content, HighlightFor(setting)));
    ReplaceBreaksLeavesNoPair(Highlighted(content, HighlightFor(setting)));
  }
}
