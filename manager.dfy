/**
 * The older API client: the same tag normalisation as the server actions but with no date filter
 * and no `props` decoding, `[]` as the failure value of both reads, and an 8-tag block vocabulary.
 */
module Manager {
  import opened Base
  import opened Json
  import opened Sorting
  import opened Lists
  import Types
  import opened Actions

  /** The older `processPost`: `{ ...post, tags }`, which throws on a `null` post at `post.tags`. */
  function NormalizeLegacy(post: Value): (r: Outcome<Value>)
    requires TagsOk(Prop(post, "tags"))
    ensures r.Threw? <==> post.Null?
    ensures r.Returns? ==> r.value.Obj?
    ensures r.Returns? ==> Prop(r.value, "tags") == Some(TagsValue(NormalizeTags(Prop(post, "tags"))))
    ensures r.Returns? && post.Obj? ==> forall k :: k != "tags" ==> Prop(r.value, k) == Prop(post, k)
  {
    if post.Null? then Threw else Returns(Set(post, "tags", TagsValue(NormalizeTags(Prop(post, "tags")))))
  }

  /** The older `processPost`, step by step: `tags` built, sorted, then spread into the post. */
  method ProcessPostLegacy(post: Value) returns (r: Outcome<Value>)
    requires TagsOk(Prop(post, "tags"))
    ensures r == NormalizeLegacy(post)
  {
    if post.Null? {
      return Threw;
    }
    var tags: seq<string> := [];
    var raw := Prop(post, "tags");
    if raw.Some? && raw.value.Arr? {
      tags := TagPieces(raw);
    } else if raw.Some? && raw.value.Str? {
      tags := StringTags(raw.value.s);
    }
    tags := SortBy(tags, LexLeq);
    r := Returns(Set(post, "tags", TagsValue(tags)));
  }

  /**
   * The newer normalisation is the older one plus `props` decoding: on an object they agree on
   * every key but `props`.
   */
  lemma NewerAddsOnlyProps(post: Value, decode: string -> Option<Value>)
    requires post.Obj? && TagsOk(Prop(post, "tags"))
    ensures forall k :: k != "props" ==> Prop(Normalize(post, decode), k) == Prop(NormalizeLegacy(post).value, k)
    ensures Prop(Normalize(post, decode), "props") == DecodeProps(Prop(NormalizeLegacy(post).value, "props"), decode)
  {
  }

  /** `data.map(processPost)`: one normalised post per input post, in order; a `null` item throws. */
  function ProcessAllLegacy(items: seq<Value>): (r: Outcome<seq<Value>>)
    requires AllTagsOk(items)
    ensures r.Threw? <==> !NoNulls(items)
    ensures r.Returns? ==>
              |r.value| == |items| && forall i :: 0 <= i < |items| ==> Returns(r.value[i]) == NormalizeLegacy(items[i])
  {
    if !NoNulls(items) then Threw
    else Returns(seq(|items|, i requires 0 <= i < |items| && AllTagsOk(items) && NoNulls(items) =>
                                NormalizeLegacy(items[i]).value))
  }

  /** What the older `getDataWithTags` returns: a list for an array input, one post otherwise. */
  datatype LegacyResult = List(posts: seq<Value>) | Single(post: Value)

  /** The older `getDataWithTags`; it throws exactly when the body has a `null` post. */
  function GetDataWithTagsLegacy(data: Value): (r: Outcome<LegacyResult>)
    requires WellTagged(data)
    ensures r.Threw? <==> HasNull(data)
    ensures r.Returns? ==> (data.Arr? <==> r.value.List?)
    ensures r.Returns? && data.Arr? ==> |r.value.posts| == |data.items|
  {
    if data.Arr? then
      match ProcessAllLegacy(data.items)
      case Threw => Threw
      case Returns(posts) => Returns(List(posts))
    else
      match NormalizeLegacy(data)
      case Threw => Threw
      case Returns(post) => Returns(Single(post))
  }

  /**
   * The older `getPost` and `getPosts`: both answer `[]` on any failure, a throw in
   * `getDataWithTags` included, and the processed body otherwise; a post is never `null`.
   */
  function GetLegacyResult(res: Response): (r: LegacyResult)
    requires res.Answered? && res.json.Some? ==> WellTagged(res.json.value)
    ensures !(res.Answered? && Ok(res.status) && res.json.Some?) ==> r == List([])
    ensures res.Answered? && Ok(res.status) && res.json.Some? && HasNull(res.json.value) ==> r == List([])
    ensures res.Answered? && Ok(res.status) && res.json.Some? && !HasNull(res.json.value) ==>
              r == GetDataWithTagsLegacy(res.json.value).value
    ensures res.Answered? && Ok(res.status) && res.json.Some? && !HasNull(res.json.value) && !res.json.value.Arr? ==>
              r.Single?
  {
    match res
    case Unreachable => List([])
    case Answered(status, json) =>
      if !Ok(status) || json.None? then List([])
      else
        match GetDataWithTagsLegacy(json.value)
        case Threw => List([])
        case Returns(data) => data
  }

  /** The older block vocabulary: eight tags. */
  datatype LegacyElementType = Title | Subtitle | Text | Separator | Image | Code | Callout | Embed

  /** The string each older tag stands for. */
  function LegacyName(t: LegacyElementType): string {
    match t
    case Title => "title"
    case Subtitle => "subtitle"
    case Text => "text"
    case Separator => "separator"
    case Image => "image"
    case Code => "code"
    case Callout => "callout"
    case Embed => "embed"
  }

  /** Each older tag is the newer tag with the same name. */
  function Upgrade(t: LegacyElementType): (r: Types.ElementType)
    ensures Types.TagName(r) == LegacyName(t)
    ensures r != Types.Poll && r != Types.Voting && r != Types.Spacer
  {
    match t
    case Title => Types.Title
    case Subtitle => Types.Subtitle
    case Text => Types.Text
    case Separator => Types.Separator
    case Image => Types.Image
    case Code => Types.Code
    case Callout => Types.Callout
    case Embed => Types.Embed
  }

  /** An older tag's name parses, in the newer vocabulary, to its upgrade. */
  lemma UpgradeParses(t: LegacyElementType)
    ensures Types.ParseTag(LegacyName(t)) == Some(Upgrade(t))
  {
    Types.TagNameRoundTrip(Upgrade(t));
  }

  const LegacyTags: seq<LegacyElementType> := [Title, Subtitle, Text, Separator, Image, Code, Callout, Embed]

  /** The older vocabulary has 8 tags and embeds into the newer one without collisions. */
  lemma LegacyEmbedding()
    ensures |LegacyTags| == 8
    ensures forall t: LegacyElementType :: t in LegacyTags
    ensures forall a, b :: Upgrade(a) == Upgrade(b) ==> a == b
  {
    forall t: LegacyElementType ensures t in LegacyTags {
      match t
      case Title => assert LegacyTags[0] == t;
      case Subtitle => assert LegacyTags[1] == t;
      case Text => assert LegacyTags[2] == t;
      case Separator => assert LegacyTags[3] == t;
      case Image => assert LegacyTags[4] == t;
      case Code => assert LegacyTags[5] == t;
      case Callout => assert LegacyTags[6] == t;
      case Embed => assert LegacyTags[7] == t;
    }
  }
}
