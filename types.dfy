/**
 * The editor's vocabulary: the block tags, the element the canvas edits, the block the server
 * stores and the post that owns the blocks.
 */
module Types {
  import opened Base
  import opened Json

  /** The closed set of block tags. */
  datatype ElementType =
    | Title | Subtitle | Text | Separator | Image | Code | Callout | Embed | Poll
    | Voting | Blockquote | Button | Accordion | Checklist | Timeline | Tabs | Spacer

  /** The string a tag travels as. */
  function TagName(t: ElementType): string {
    match t
    case Title => "title"
    case Subtitle => "subtitle"
    case Text => "text"
    case Separator => "separator"
    case Image => "image"
    case Code => "code"
    case Callout => "callout"
    case Embed => "embed"
    case Poll => "poll"
    case Voting => "voting"
    case Blockquote => "blockquote"
    case Button => "button"
    case Accordion => "accordion"
    case Checklist => "checklist"
    case Timeline => "timeline"
    case Tabs => "tabs"
    case Spacer => "spacer"
  }

  /** Every tag, once each, in declaration order. */
  const AllTags: seq<ElementType> :=
    [Title, Subtitle, Text, Separator, Image, Code, Callout, Embed, Poll,
     Voting, Blockquote, Button, Accordion, Checklist, Timeline, Tabs, Spacer]

  /** Reads a tag back from its string; anything else is not a tag. */
  function ParseTag(s: string): (r: Option<ElementType>)
    ensures r.Some? ==> TagName(r.value) == s
    ensures r.None? ==> forall t :: TagName(t) != s
  {
    AllTagsComplete();
    assert AllTags[0..] == AllTags;
    FindTag(s, 0)
  }

  function FindTag(s: string, i: nat): (r: Option<ElementType>)
    requires i <= |AllTags|
    ensures r.Some? ==> TagName(r.value) == s
    ensures r.None? ==> forall t :: t in AllTags[i..] ==> TagName(t) != s
    decreases |AllTags| - i
  {
    if i == |AllTags| then None
    else
      var t := AllTags[i];
      if TagName(t) == s then Some(t)
      else
        var rest := FindTag(s, i + 1);
        assert AllTags[i..] == [t] + AllTags[i + 1..];
        rest
  }

  /** The enumeration has exactly 17 distinct tags, all of them listed. */
  lemma AllTagsComplete()
    ensures |AllTags| == 17
    ensures forall t :: t in AllTags
    ensures forall i, j :: 0 <= i < j < |AllTags| ==> AllTags[i] != AllTags[j]
  {
    forall t ensures t in AllTags {
      TagListed(t);
    }
  }

  lemma TagListed(t: ElementType)
    ensures t in AllTags
  {
    match t
    case Title => assert AllTags[0] == t;
    case Subtitle => assert AllTags[1] == t;
    case Text => assert AllTags[2] == t;
    case Separator => assert AllTags[3] == t;
    case Image => assert AllTags[4] == t;
    case Code => assert AllTags[5] == t;
    case Callout => assert AllTags[6] == t;
    case Embed => assert AllTags[7] == t;
    case Poll => assert AllTags[8] == t;
    case Voting => assert AllTags[9] == t;
    case Blockquote => assert AllTags[10] == t;
    case Button => assert AllTags[11] == t;
    case Accordion => assert AllTags[12] == t;
    case Checklist => assert AllTags[13] == t;
    case Timeline => assert AllTags[14] == t;
    case Tabs => assert AllTags[15] == t;
    case Spacer => assert AllTags[16] == t;
  }

  /** Distinct tags have distinct names, so a name read back gives the tag it came from. */
  lemma {:induction false} TagNameRoundTrip(t: ElementType)
    ensures ParseTag(TagName(t)) == Some(t)
  {
    var r := ParseTag(TagName(t));
    TagListed(t);
    TagNameInjective(r.value, t);
  }

  lemma TagNameInjective(a: ElementType, b: ElementType)
    requires TagName(a) == TagName(b)
    ensures a == b
  {
    var na, nb := TagName(a), TagName(b);
    // Each name differs from every other at its length or at one of its first three characters.
    assert |na| == |nb| && na[0] == nb[0] && na[1] == nb[1] && na[2] == nb[2];
  }

  /** An element on the canvas. `content` may be absent. */
  datatype CanvasElement = CanvasElement(id: string, typ: ElementType, props: Value, content: Option<string>)

  /**
   * A block as the server stores it. `id` and `createdAt` are optional, `content` is required
   * and `position` is the only ordering field. `props` is whatever the server sent: it is not
   * decoded on the way in, so it may be a string.
   */
  datatype Block = Block(
    id: Option<string>,
    postId: Value,
    position: int,
    typ: ElementType,
    content: string,
    props: Value,
    createdAt: Option<string>)

  /** The partial block the editor sends when saving: no `id`, no `post_id`, no `created_at`. */
  datatype BlockDraft = BlockDraft(position: int, typ: ElementType, content: string, props: Value)

  /** A post. `tags`, `blocks`, `date` and `props` are optional; dates are instants as integers. */
  datatype Post = Post(
    id: Value,
    title: string,
    content: string,
    tags: Option<seq<string>>,
    blocks: Option<seq<Block>>,
    likes: int,
    createdAt: int,
    date: Option<int>,
    props: Option<Value>)
}
