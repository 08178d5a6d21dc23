/**
 * The category table and the badges shown for a post's tags. A tag names a category by its key;
 * a tag that names none is shown as it is.
 */
module Categories {
  import opened Base
  import opened Text

  /** A category. No entry sets `isDark`, so it is `false` throughout. */
  datatype Category = Category(caption: string, color: string, isDark: bool)

  datatype Entry = Entry(key: string, category: Category)

  function C(key: string, caption: string, color: string): Entry {
    Entry(key, Category(caption, color, false))
  }

  /** The frozen table, in declaration order (the order `Object.entries` lists it in). */
  const Table: seq<Entry> := [
    C("historia", "História", "bg-yellow-500"),
    C("religioes", "Religiões", "bg-red-600"),
    C("cultura", "Cultura", "bg-orange-500"),
    C("medicina", "Medicina", "bg-rose-500"),
    C("biologia", "Biologia", "bg-emerald-500"),
    C("zoologia", "Zoologia", "bg-green-600"),
    C("astronomia", "Astronomia", "bg-cyan-500"),
    C("linguistica", "Linguística", "bg-indigo-400"),
    C("comunicacao", "Comunicação", "bg-blue-400"),
    C("ciencias", "Ciências", "bg-green-500"),
    C("tecnologia", "Tecnologia", "bg-violet-500"),
    C("cotidiano", "Cotidiano", "bg-amber-500"),
    C("imperios", "Impérios", "bg-stone-600"),
    C("mitos", "Mitos", "bg-purple-600"),
    C("simbolismo", "Simbolismo", "bg-fuchsia-500"),
    C("mundomoderno", "Mundo Moderno", "bg-sky-600"),
    C("portugues", "Português", "bg-red-500"),
    C("matematica", "Matemática", "bg-blue-500"),
    C("fisica", "Física", "bg-indigo-500"),
    C("quimica", "Química", "bg-purple-500"),
    C("geografia", "Geografia", "bg-amber-500"),
    C("filosofia", "Filosofia", "bg-slate-500"),
    C("sociologia", "Sociologia", "bg-stone-500"),
    C("literatura", "Literatura", "bg-orange-500"),
    C("psicologia", "Psicologia", "bg-pink-500"),
    C("economia", "Economia", "bg-lime-500"),
    C("direito", "Direito", "bg-gray-600"),
    C("engenharia", "Engenharia", "bg-sky-500"),
    C("artes", "Artes", "bg-fuchsia-500")
  ]

  /** Every caption is set and no entry is dark. */
  lemma TableShape()
    ensures |Table| == 29
    ensures forall i :: 0 <= i < |Table| ==> Table[i].category.caption != "" && !Table[i].category.isDark
  {
  }

  /** The index of the first entry of `entries` with key `key`, searching from `i`. */
  function FindKey(entries: seq<Entry>, key: string, i: nat): (r: Option<nat>)
    requires i <= |entries|
    ensures r.Some? ==> i <= r.value < |entries| && entries[r.value].key == key
    ensures r.Some? ==> forall j :: i <= j < r.value ==> entries[j].key != key
    ensures r.None? ==> forall j :: i <= j < |entries| ==> entries[j].key != key
    decreases |entries| - i
  {
    if i == |entries| then None
    else if entries[i].key == key then Some(i)
    else FindKey(entries, key, i + 1)
  }

  /** `Categories[tag]`: the category with that key, or `undefined`. */
  function Lookup(tag: string): (r: Option<Category>)
    ensures r.Some? <==> exists i :: 0 <= i < |Table| && Table[i].key == tag
    ensures r.Some? ==> exists i :: 0 <= i < |Table| && Table[i] == Entry(tag, r.value)
  {
    match FindKey(Table, tag, 0)
    case Some(i) => Some(Table[i].category)
    case None => None
  }

  /** No key is empty, so the empty tag names no category. */
  lemma EmptyTagUnknown()
    ensures Lookup("").None?
  {
    assert forall i :: 0 <= i < |Table| ==> |Table[i].key| > 0;
  }

  /** The two shapes `getBadges` accepts: a comma-separated string or an array of tags. */
  datatype Tags = Joined(s: string) | List(tags: seq<string>)

  /** `tags.split(",").map((tag) => tag.trim())`: empty pieces are kept. */
  function Pieces(s: string): (r: seq<string>)
    ensures |r| == |Split(s, ',')| && |r| >= 1
    ensures forall i :: 0 <= i < |r| ==> r[i] == Trim(Split(s, ',')[i])
  {
    var parts := Split(s, ',');
    seq(|parts|, i requires 0 <= i < |parts| => Trim(parts[i]))
  }

  /** The tag list a badge row is built from: an array as it is, a string split and trimmed. */
  function TagList(tags: Tags): (r: seq<string>)
    ensures tags.List? ==> r == tags.tags
    ensures tags.Joined? ==> r == Pieces(tags.s)
  {
    match tags
    case List(t) => t
    case Joined(s) => Pieces(s)
  }

  /** One badge: its React key, its colour class (absent for an unknown tag), its text class and caption. */
  datatype Badge = Badge(key: string, colorClass: Option<string>, textClass: string, caption: string)

  /** The badge of one tag: the category's caption and colour, or the raw tag with no colour. */
  function BadgeFor(tag: string): (r: Badge)
    ensures r.key == tag
    ensures Lookup(tag).Some? ==> r.caption == Lookup(tag).value.caption && r.colorClass == Some(Lookup(tag).value.color)
    ensures Lookup(tag).None? ==> r.caption == tag && r.colorClass.None?
    ensures r.textClass == "text-gray-950"
  {
    TableShape();
    var category := Lookup(tag);
    var caption := if category.Some? && category.value.caption != "" then category.value.caption else tag;
    var textClass := if category.Some? && category.value.isDark then "text-white" else "text-gray-950";
    Badge(tag, if category.Some? then Some(category.value.color) else None, textClass, caption)
  }

  /** `getBadges(tags)`: one badge per tag, in the order of the tag list. */
  function GetBadges(tags: Tags): (r: seq<Badge>)
    ensures |r| == |TagList(tags)|
    ensures forall i :: 0 <= i < |r| ==> r[i] == BadgeFor(TagList(tags)[i])
  {
    var list := TagList(tags);
    seq(|list|, i requires 0 <= i < |list| => BadgeFor(list[i]))
  }

  /**
   * A comma-joined string of trimmed, comma-free tags gives the same badges as the list itself:
   * the string form is read back piece by piece.
   */
  lemma JoinedBadges(xs: seq<string>)
    requires |xs| >= 1
    requires forall i :: 0 <= i < |xs| ==> ',' !in xs[i] && (xs[i] == [] || (!IsSpace(xs[i][0]) && !IsSpace(xs[i][|xs[i]| - 1])))
    ensures GetBadges(Joined(Join(xs, ','))) == GetBadges(List(xs))
  {
    SplitJoin(xs, ',');
    forall i | 0 <= i < |xs| ensures Pieces(Join(xs, ','))[i] == xs[i] {
      TrimIdle(xs[i]);
    }
    assert TagList(Joined(Join(xs, ','))) == xs;
  }

  /** "a,,b" splits into "a", "" and "b". */
  lemma SplitSample()
    ensures Split("a,,b", ',') == ["a", "", "b"]
  {
    var s := "a,,b";
    var s3 := s[3..];
    assert s3 == "b" && s3[1..] == "";
    assert Split(s3[1..], ',') == [""];
    assert [s3[0]] + "" == "b";
    assert Split(s3, ',') == [[s3[0]] + ""] + [""][1..];
    assert s[2..] == ",b" && s[2..][1..] == s3;
    assert Split(s[2..], ',') == ["", "b"];
    assert s[1..] == ",,b" && s[1..][1..] == s[2..];
    assert Split(s[1..], ',') == ["", "", "b"];
    assert [s[0]] + "" == "a";
    assert Split(s, ',') == [[s[0]] + ""] + ["", "b"];
  }

  /** A string tag list keeps empty pieces: "a,,b" shows three badges, the middle one empty. */
  lemma EmptyPiecesKept()
    ensures |GetBadges(Joined("a,,b"))| == 3
    ensures GetBadges(Joined("a,,b"))[1].caption == ""
  {
    SplitSample();
    assert Pieces("a,,b")[1] == Trim("");
    EmptyTagUnknown();
  }
}
