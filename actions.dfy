/**
 * The server actions' boundary rules: how a post read from the API is normalised (tags parsed
 * and sorted, `props` decoded, future posts hidden), how a post update is serialised, how a vote
 * is merged into a block's `props`, and which sentinel each request returns when it fails.
 * JSON decoding is the parameter `decode` (`None` when `JSON.parse` throws) and encoding the
 * parameter `encode`; `time` parses a date (`None` for an invalid one) and `now` is the clock.
 */
module Actions {
  import opened Base
  import opened Json
  import opened Text
  import opened Sorting
  import opened Lists

  // ---------------------------------------------------------------- tags

  /** The declared `tags?: string[]`: an array of tags holds only strings. */
  predicate TagsOk(tags: Option<Value>) {
    tags.Some? && tags.value.Arr? ==> forall i :: 0 <= i < |tags.value.items| ==> tags.value.items[i].Str?
  }

  predicate NonEmpty(t: string) {
    |t| > 0
  }

  /** `s.split(",").map(t => t.trim()).filter(t => t.length > 0)`. */
  function StringTags(s: string): seq<string> {
    Filter(Project(Split(s, ','), Trim), NonEmpty)
  }

  /** The tags before sorting: a copy of an array, the pieces of a string, or none. */
  function TagPieces(tags: Option<Value>): seq<string>
    requires TagsOk(tags)
  {
    match tags
    case Some(Arr(items)) => seq(|items|, i requires 0 <= i < |items| && items[i].Str? => items[i].s)
    case Some(Str(s)) => StringTags(s)
    case _ => []
  }

  /** The normalised tag list: the pieces sorted with `localeCompare`. */
  function NormalizeTags(tags: Option<Value>): (r: seq<string>)
    requires TagsOk(tags)
    ensures multiset(r) == multiset(TagPieces(tags))
    ensures Sorted(r, LexLeq)
  {
    SortByPermutes(TagPieces(tags), LexLeq);
    LexLeqIsTotalPreorder();
    SortBySorted(TagPieces(tags), LexLeq);
    SortBy(TagPieces(tags), LexLeq)
  }

  /** A tag a string round-trips: non-empty, trimmed and comma-free. */
  predicate TagShaped(x: string) {
    x != "" && !IsSpace(x[0]) && !IsSpace(x[|x| - 1]) && ',' !in x
  }

  /** A tag list a string round-trips: sorted, and every tag shaped. */
  ghost predicate Canonical(t: seq<string>) {
    && Sorted(t, LexLeq)
    && forall i :: 0 <= i < |t| ==> TagShaped(t[i])
  }

  /** Tags parsed from a string are canonical. */
  lemma StringTagsCanonical(s: string)
    ensures Canonical(NormalizeTags(Some(Str(s))))
  {
    var r := NormalizeTags(Some(Str(s)));
    forall i | 0 <= i < |r|
      ensures TagShaped(r[i])
    {
      assert r[i] in multiset(StringTags(s));
      StringTagShape(s, r[i]);
    }
  }

  /** Each piece of a tag string is non-empty, trimmed and free of commas. */
  lemma StringTagShape(s: string, x: string)
    requires x in StringTags(s)
    ensures TagShaped(x)
  {
    var pieces := Split(s, ',');
    var trimmed := Project(pieces, Trim);
    FilterMember(trimmed, NonEmpty, x);
    var j :| 0 <= j < |trimmed| && trimmed[j] == x;
    TrimmedShape(pieces[j]);
  }

  lemma TrimmedShape(piece: string)
    requires ',' !in piece
    ensures var x := Trim(piece);
      x == [] || TagShaped(x)
  {
    SliceOmits(piece, Trim(piece), |piece| - |TrimStart(piece)|, ',');
  }

  /** Joining canonical tags with "," and parsing the string again gives the same tags. */
  lemma TagsRoundTrip(t: seq<string>)
    requires Canonical(t)
    ensures NormalizeTags(Some(Str(Join(t, ',')))) == t
  {
    LexLeqIsTotalPreorder();
    if t == [] {
      assert Split("", ',') == [""];
      assert Project([""], Trim) == [""];
    } else {
      SplitJoin(t, ',');
      forall i | 0 <= i < |t| ensures Trim(t[i]) == t[i] {
        TrimIdle(t[i]);
      }
      assert Project(t, Trim) == t;
      FilterKeepsAll(t, NonEmpty);
      SortByIdle(t, LexLeq);
    }
  }

  // ---------------------------------------------------------------- props and posts

  /** A string `props` is decoded, `{}` when decoding fails; any other value passes through. */
  function DecodeProps(props: Option<Value>, decode: string -> Option<Value>): (r: Option<Value>)
    ensures props.Some? && props.value.Str? ==> r == Some(decode(props.value.s).GetOr(Obj(map[])))
    ensures !(props.Some? && props.value.Str?) ==> r == props
  {
    match props
    case Some(Str(s)) => Some(decode(s).GetOr(Obj(map[])))
    case _ => props
  }

  function TagsValue(tags: seq<string>): Value {
    Arr(Project(tags, (t: string) => Str(t)))
  }

  /**
   * `new Date(post.date) > now`, with `time` as the date parser: a post is never in the future
   * when `time` gives no instant for its date.
   */
  predicate IsFuture(post: Value, now: int, time: Option<Value> -> Option<int>) {
    var d := time(Prop(post, "date"));
    d.Some? && d.value > now
  }

  /** `{ ...post, tags, props }`. */
  function Normalize(post: Value, decode: string -> Option<Value>): (r: Value)
    requires TagsOk(Prop(post, "tags"))
    ensures r.Obj?
    ensures Prop(r, "tags") == Some(TagsValue(NormalizeTags(Prop(post, "tags"))))
    ensures Prop(r, "props") == DecodeProps(Prop(post, "props"), decode)
    ensures post.Obj? ==> forall k :: k != "tags" && k != "props" ==> Prop(r, k) == Prop(post, k)
  {
    With(Set(post, "tags", TagsValue(NormalizeTags(Prop(post, "tags")))), "props", DecodeProps(Prop(post, "props"), decode))
  }

  /**
   * What `processPost` does: a `null` post throws at `post.date`; otherwise it returns nothing for
   * a hidden future post and the normalised post for any other.
   */
  function ProcessedPost(post: Value, filterFuture: bool, now: int, time: Option<Value> -> Option<int>,
                         decode: string -> Option<Value>): (r: Outcome<Option<Value>>)
    requires TagsOk(Prop(post, "tags"))
    ensures r.Threw? <==> post.Null?
    ensures r.Returns? ==> (r.value.None? <==> filterFuture && IsFuture(post, now, time))
    ensures r.Returns? && r.value.Some? ==> r.value.value == Normalize(post, decode)
  {
    if post.Null? then Threw
    else if filterFuture && IsFuture(post, now, time) then Returns(None)
    else Returns(Some(Normalize(post, decode)))
  }

  /** `processPost`, step by step: the future check, then `tags`, then `props`. */
  method ProcessPost(post: Value, filterFuture: bool, now: int, time: Option<Value> -> Option<int>,
                     decode: string -> Option<Value>) returns (r: Outcome<Option<Value>>)
    requires TagsOk(Prop(post, "tags"))
    ensures r == ProcessedPost(post, filterFuture, now, time, decode)
  {
    if post.Null? {
      return Threw;
    }
    var date := time(Prop(post, "date"));
    if filterFuture && date.Some? && date.value > now {
      return Returns(None);
    }
    var tags: seq<string> := [];
    var raw := Prop(post, "tags");
    if raw.Some? && raw.value.Arr? {
      tags := TagPieces(raw);
    } else if raw.Some? && raw.value.Str? {
      tags := StringTags(raw.value.s);
    }
    assert tags == TagPieces(raw);
    tags := SortBy(tags, LexLeq);
    assert tags == NormalizeTags(raw);
    var props := Prop(post, "props");
    if props.Some? && props.value.Str? {
      var parsed := decode(props.value.s);
      if parsed.Some? {
        props := parsed;
      } else {
        props := Some(Obj(map[]));
      }
    }
    assert props == DecodeProps(Prop(post, "props"), decode);
    r := Returns(Some(With(Set(post, "tags", TagsValue(tags)), "props", props)));
  }

  predicate AllTagsOk(items: seq<Value>) {
    forall i :: 0 <= i < |items| ==> TagsOk(Prop(items[i], "tags"))
  }

  /** No item of the list is `null`. */
  predicate NoNulls(items: seq<Value>) {
    forall i :: 0 <= i < |items| ==> !items[i].Null?
  }

  /**
   * A list splits into its head and tail: the tail's tags are fine, the list has no `null` item
   * exactly when neither part has one, and normalising it normalises the head then the tail.
   */
  lemma SplitHead(items: seq<Value>, decode: string -> Option<Value>)
    requires items != [] && AllTagsOk(items)
    ensures AllTagsOk(items[1..])
    ensures NoNulls(items) <==> !items[0].Null? && NoNulls(items[1..])
    ensures NormalizeEach(items, decode) == [Normalize(items[0], decode)] + NormalizeEach(items[1..], decode)
  {
    assert forall i :: 1 <= i < |items| ==> items[1..][i - 1] == items[i];
    assert [items[0]] + items[1..] == items;
    ConsNormalizeEach(items[0], items[1..], decode);
  }

  /**
   * `data.map(processPost).filter(post => post !== null)`: a `null` item anywhere throws before
   * the filter runs; otherwise the hidden posts are dropped and the others normalised.
   */
  function ProcessAll(items: seq<Value>, filterFuture: bool, now: int, time: Option<Value> -> Option<int>,
                      decode: string -> Option<Value>): (r: Outcome<seq<Value>>)
    requires AllTagsOk(items)
    ensures r.Threw? <==> !NoNulls(items)
    ensures r.Returns? ==> |r.value| <= |items|
    ensures r.Returns? && !filterFuture ==> r.value == NormalizeEach(items, decode)
  {
    if items == [] then Returns([])
    else
      SplitHead(items, decode);
      var rest := ProcessAll(items[1..], filterFuture, now, time, decode);
      match ProcessedPost(items[0], filterFuture, now, time, decode)
      case Threw => Threw
      case Returns(p) =>
        if rest.Threw? then Threw
        else if p.Some? then Returns([p.value] + rest.value)
        else Returns(rest.value)
  }

  /** The posts that survive the date filter, each normalised. */
  function NormalizeEach(items: seq<Value>, decode: string -> Option<Value>): (r: seq<Value>)
    requires AllTagsOk(items)
    ensures |r| == |items| && forall i :: 0 <= i < |r| ==> r[i] == Normalize(items[i], decode)
  {
    seq(|items|, i requires 0 <= i < |items| && AllTagsOk(items) => Normalize(items[i], decode))
  }

  /** `post => post is not a hidden future post`. */
  function KeepFilter(filterFuture: bool, now: int, time: Option<Value> -> Option<int>): Value -> bool {
    (p: Value) => !(filterFuture && IsFuture(p, now, time))
  }

  lemma KeptTagsOk(items: seq<Value>, keep: Value -> bool)
    requires AllTagsOk(items)
    ensures AllTagsOk(Filter(items, keep))
  {
    var kept := Filter(items, keep);
    forall i | 0 <= i < |kept| ensures TagsOk(Prop(kept[i], "tags")) {
      var j :| 0 <= j < |items| && items[j] == kept[i];
    }
  }

  /**
   * A list without `null` items is "drop the future posts, then normalise each of the others, in
   * order".
   */
  lemma {:induction false} ProcessAllIsFilterThenNormalize(items: seq<Value>, filterFuture: bool, now: int,
                                                        time: Option<Value> -> Option<int>, decode: string -> Option<Value>)
    requires AllTagsOk(items) && NoNulls(items)
    ensures var kept := Filter(items, KeepFilter(filterFuture, now, time));
      AllTagsOk(kept) && ProcessAll(items, filterFuture, now, time, decode) == Returns(NormalizeEach(kept, decode))
  {
    var keep := KeepFilter(filterFuture, now, time);
    KeptTagsOk(items, keep);
    if items != [] {
      assert AllTagsOk(items[1..]) && NoNulls(items[1..]) by {
        forall i | 0 <= i < |items[1..]| ensures TagsOk(Prop(items[1..][i], "tags")) && !items[1..][i].Null? {
          assert items[1..][i] == items[i + 1];
        }
      }
      ProcessAllIsFilterThenNormalize(items[1..], filterFuture, now, time, decode);
      var kept := Filter(items[1..], keep);
      var rest := ProcessAll(items[1..], filterFuture, now, time, decode).value;
      assert rest == NormalizeEach(kept, decode);
      assert !items[0].Null?;
      if keep(items[0]) {
        assert Filter(items, keep) == [items[0]] + kept;
        assert ProcessAll(items, filterFuture, now, time, decode) == Returns([Normalize(items[0], decode)] + rest);
        ConsNormalizeEach(items[0], kept, decode);
      } else {
        assert Filter(items, keep) == kept;
      }
    }
  }

  lemma ConsNormalizeEach(x: Value, xs: seq<Value>, decode: string -> Option<Value>)
    requires TagsOk(Prop(x, "tags")) && AllTagsOk([x] + xs) && AllTagsOk(xs)
    ensures NormalizeEach([x] + xs, decode) == [Normalize(x, decode)] + NormalizeEach(xs, decode)
  {
    var l, r := NormalizeEach([x] + xs, decode), [Normalize(x, decode)] + NormalizeEach(xs, decode);
    assert |l| == |r|;
    forall i | 0 <= i < |l| ensures l[i] == r[i] {
      if i > 0 {
        assert ([x] + xs)[i] == xs[i - 1];
      }
    }
  }

  /** What `getDataWithTags` returns: a list for an array input, one post (or null) otherwise. */
  datatype Processed = Many(posts: seq<Value>) | One(post: Option<Value>)

  predicate WellTagged(data: Value) {
    if data.Arr? then AllTagsOk(data.items) else TagsOk(Prop(data, "tags"))
  }

  /** The body makes `processPost` throw: it is `null`, or an array with a `null` item. */
  predicate HasNull(data: Value) {
    data.Null? || (data.Arr? && !NoNulls(data.items))
  }

  /**
   * `getDataWithTags`: every post of an array through `processPost`, hidden ones dropped, or the one
   * post on its own; it throws exactly when the body has a `null` post.
   */
  function GetDataWithTags(data: Value, filterFuture: bool, now: int, time: Option<Value> -> Option<int>,
                           decode: string -> Option<Value>): (r: Outcome<Processed>)
    requires WellTagged(data)
    ensures r.Threw? <==> HasNull(data)
    ensures r.Returns? ==> (data.Arr? <==> r.value.Many?)
    ensures r.Returns? && !filterFuture ==> r.value != One(None)
  {
    if data.Arr? then
      match ProcessAll(data.items, filterFuture, now, time, decode)
      case Threw => Threw
      case Returns(posts) => Returns(Many(posts))
    else
      match ProcessedPost(data, filterFuture, now, time, decode)
      case Threw => Threw
      case Returns(post) => Returns(One(post))
  }

  // ---------------------------------------------------------------- requests and their sentinels

  /** What a request came back with: no answer at all, or a status and a body that may not parse. */
  datatype Response = Unreachable | Answered(status: int, json: Option<Value>)

  predicate Ok(status: int) {
    200 <= status <= 299
  }

  /**
   * `createPost`: the new post's id, `true` when the API sends no id, `false` on any failure,
   * reading `id` of a `null` body included.
   */
  function CreatePostResult(res: Response): (r: Value)
    ensures r == Bool(false) <==> res.Unreachable? || !Ok(res.status) || res.json.None? || res.json.value.Null?
    ensures r != Bool(false) ==> r == Bool(true) || Some(r) == Prop(res.json.value, "id")
  {
    match res
    case Unreachable => Bool(false)
    case Answered(status, json) =>
      if !Ok(status) || json.None? || json.value.Null? then Bool(false)
      else
        var id := Prop(json.value, "id");
        if Present(id) then id.value else Bool(true)
  }

  /** `deletePost`, `saveBlocks` and `updatePost`: `true` exactly on a 2xx answer. */
  function StatusResult(res: Response): (r: bool)
    ensures r <==> res.Answered? && Ok(res.status)
  {
    res.Answered? && Ok(res.status)
  }

  /**
   * `getPost`: `null` for a 404 or any failure, a throw in `getDataWithTags` included, otherwise the
   * normalised post with the date filter off.
   */
  function GetPostResult(res: Response, decode: string -> Option<Value>): (r: Option<Processed>)
    requires res.Answered? && res.json.Some? ==> WellTagged(res.json.value)
    ensures res.Answered? && res.status == 404 ==> r.None?
    ensures r.Some? <==> res.Answered? && Ok(res.status) && res.json.Some? && !HasNull(res.json.value)
    ensures r.Some? ==> r.value != One(None) && (res.json.value.Arr? <==> r.value.Many?)
  {
    match res
    case Unreachable => None
    case Answered(status, json) =>
      if status == 404 then None
      else if !Ok(status) || json.None? then None
      else
        match GetDataWithTags(json.value, false, 0, (d: Option<Value>) => None, decode)
        case Threw => None
        case Returns(data) => Some(data)
  }

  /** The date filter is off in `getPost`: the clock and the date parser make no difference. */
  lemma GetPostIgnoresDates(data: Value, now: int, time: Option<Value> -> Option<int>, decode: string -> Option<Value>)
    requires WellTagged(data) && !HasNull(data)
    ensures GetPostResult(Answered(200, Some(data)), decode) == Some(GetDataWithTags(data, false, now, time, decode).value)
  {
    if data.Arr? {
      ProcessAllIsFilterThenNormalize(data.items, false, now, time, decode);
      ProcessAllIsFilterThenNormalize(data.items, false, 0, (d: Option<Value>) => None, decode);
      FilterKeepsAll(data.items, (p: Value) => !(false && IsFuture(p, now, time)));
      FilterKeepsAll(data.items, (p: Value) => !(false && IsFuture(p, 0, (d: Option<Value>) => None)));
    }
  }

  /** `getPosts`: `[]` on any failure, a throw in `getDataWithTags` included, the processed body otherwise. */
  function GetPostsResult(res: Response, filterFuture: bool, now: int, time: Option<Value> -> Option<int>,
                          decode: string -> Option<Value>): (r: Processed)
    requires res.Answered? && res.json.Some? ==> WellTagged(res.json.value)
    ensures !(res.Answered? && Ok(res.status) && res.json.Some?) ==> r == Many([])
    ensures res.Answered? && Ok(res.status) && res.json.Some? && HasNull(res.json.value) ==> r == Many([])
    ensures res.Answered? && Ok(res.status) && res.json.Some? && !HasNull(res.json.value) ==>
              r == GetDataWithTags(res.json.value, filterFuture, now, time, decode).value
  {
    match res
    case Unreachable => Many([])
    case Answered(status, json) =>
      if !Ok(status) || json.None? then Many([])
      else
        match GetDataWithTags(json.value, filterFuture, now, time, decode)
        case Threw => Many([])
        case Returns(data) => data
  }

  /**
   * `managePostLikes`: `true` whenever the answer's body parses, whatever its status, unless the body
   * is `null` and reading its `message` throws.
   */
  function LikesResult(res: Response): (r: bool)
    ensures r <==> res.Answered? && res.json.Some? && !res.json.value.Null?
  {
    match res
    case Unreachable => false
    case Answered(_, json) => json.Some? && !json.value.Null?
  }

  // ---------------------------------------------------------------- updating a post

  /** The argument of `updatePost`. */
  datatype PostUpdate = PostUpdate(title: string, content: string, tags: seq<string>, date: Option<string>, props: Option<Value>)

  /** The body `updatePost` sends: tags joined with ",", `props` encoded as a string and left out when absent. */
  function UpdatePostBody(data: PostUpdate, encode: Value -> string): (r: Value)
    ensures Prop(r, "title") == Some(Str(data.title)) && Prop(r, "content") == Some(Str(data.content))
    ensures Prop(r, "tags") == Some(Str(Join(data.tags, ',')))
    ensures Prop(r, "date") == (if data.date.Some? then Some(Str(data.date.value)) else None)
    ensures Prop(r, "props") == (if Present(data.props) then Some(Str(encode(data.props.value))) else None)
  {
    var fields := map["title" := Str(data.title), "content" := Str(data.content)];
    var withDate := if data.date.Some? then fields["date" := Str(data.date.value)] else fields;
    var withTags := withDate["tags" := Str(Join(data.tags, ','))];
    if Present(data.props) then Obj(withTags["props" := Str(encode(data.props.value))]) else Obj(withTags)
  }

  /**
   * What the server stores from an update reads back as what was sent: canonical tags come back
   * unchanged and the props come back decoded, given that `decode` undoes `encode`.
   */
  lemma UpdateReadsBack(data: PostUpdate, encode: Value -> string, decode: string -> Option<Value>)
    requires Canonical(data.tags)
    requires Present(data.props) && decode(encode(data.props.value)) == Some(data.props.value)
    ensures var body := UpdatePostBody(data, encode);
      && NormalizeTags(Prop(body, "tags")) == data.tags
      && DecodeProps(Prop(body, "props"), decode) == data.props
  {
    TagsRoundTrip(data.tags);
  }

  // ---------------------------------------------------------------- voting

  /** `props.votes || {}`. */
  function VotesOf(props: Value): Value {
    var v := Prop(props, "votes");
    if Present(v) then v.value else Obj(map[])
  }

  /** `{ ...props, votes: { ...votes, [optionId]: (votes[optionId] || 0) + 1 } }`. */
  function VoteMerge(props: Value, optionId: string): (r: Value)
    ensures Prop(r, "votes").Some? && Prop(r, "votes").value.Obj?
    ensures Prop(Prop(r, "votes").value, optionId) == Some(PlusOne(Prop(VotesOf(props), optionId)))
    ensures VotesOf(props).Obj? ==> forall o :: o != optionId ==> Prop(Prop(r, "votes").value, o) == Prop(VotesOf(props), o)
    ensures props.Obj? ==> forall k :: k != "votes" ==> Prop(r, k) == Prop(props, k)
  {
    var votes := VotesOf(props);
    var newVotes := Set(votes, optionId, PlusOne(Prop(votes, optionId)));
    Set(props, "votes", newVotes)
  }

  /** A vote adds exactly one to a numeric count, and starts an absent count at one. */
  lemma VoteAddsOne(props: Value, optionId: string)
    ensures var count := Prop(VotesOf(props), optionId);
      var after := Prop(Prop(VoteMerge(props, optionId), "votes").value, optionId);
      && (count.Some? && count.value.Num? ==> after == Some(Num(count.value.n + 1)))
      && (count.None? ==> after == Some(Num(1)))
  {
  }

  /** The outcome of `blocks.find(b => b.id === blockId)`: found, missing, or a null item that throws. */
  datatype Search = Found(block: Value) | Missing | Throws

  /** Every item before `i` is a non-null block without the id `blockId`: the search goes past it. */
  predicate PassedBefore(items: seq<Value>, blockId: string, i: int) {
    forall j :: 0 <= j < i && j < |items| ==> !items[j].Null? && Prop(items[j], "id") != Some(Str(blockId))
  }

  /**
   * `blocks.find(b => b.id === blockId)`: the first block with the id, unless a `null` item comes
   * first, whose `id` read throws.
   */
  function FindBlock(items: seq<Value>, blockId: string): (r: Search)
    ensures r.Found? ==> exists i :: 0 <= i < |items| && items[i] == r.block && PassedBefore(items, blockId, i)
                                     && Prop(r.block, "id") == Some(Str(blockId))
    ensures r.Throws? <==> exists i :: 0 <= i < |items| && items[i].Null? && PassedBefore(items, blockId, i)
    ensures r.Missing? <==> PassedBefore(items, blockId, |items|)
    decreases |items|
  {
    if items == [] then Missing
    else if items[0].Null? then Throws
    else if Prop(items[0], "id") == Some(Str(blockId)) then Found(items[0])
    else FindBlock(items[1..], blockId)
  }

  /** The block's props as `voteOnBlock` reads them: `block.props || {}`, decoded when a string. */
  function BlockProps(block: Value, decode: string -> Option<Value>): Value {
    var p := Prop(block, "props");
    var props := if Present(p) then p.value else Obj(map[]);
    if props.Str? then decode(props.s).GetOr(Obj(map[])) else props
  }

  /**
   * The merged props `voteOnBlock` sends for `blockId`, or `None` when it returns `false` before
   * sending: no post, no blocks, no such block, or a step that throws.
   */
  function VoteRequest(post: Option<Processed>, blockId: string, optionId: string,
                       decode: string -> Option<Value>): (r: Option<Value>)
    ensures r.Some? <==>
      && post.Some? && post.value.One? && post.value.post.Some?
      && var blocks := Prop(post.value.post.value, "blocks");
         && Present(blocks) && blocks.value.Arr?
         && FindBlock(blocks.value.items, blockId).Found?
         && !BlockProps(FindBlock(blocks.value.items, blockId).block, decode).Null?
    ensures r.Some? ==>
      r.value == VoteMerge(BlockProps(FindBlock(Prop(post.value.post.value, "blocks").value.items, blockId).block, decode), optionId)
  {
    match post
    case Some(One(Some(p))) =>
      (var blocks := Prop(p, "blocks");
       if !Present(blocks) || !blocks.value.Arr? then None
       else match FindBlock(blocks.value.items, blockId)
         case Found(block) =>
           var props := BlockProps(block, decode);
           if props.Null? then None else Some(VoteMerge(props, optionId))
         case _ => None)
    case _ => None
  }

  /**
   * A post whose blocks hold a block with the id, past only non-null blocks without it, gets a vote
   * for that block sent, unless its props read as `null`: its props with the option's count plus one.
   */
  lemma VoteSentForFirstMatch(p: Value, items: seq<Value>, i: nat, blockId: string, optionId: string,
                              decode: string -> Option<Value>)
    requires Prop(p, "blocks") == Some(Arr(items))
    requires i < |items| && Prop(items[i], "id") == Some(Str(blockId)) && PassedBefore(items, blockId, i)
    requires !BlockProps(items[i], decode).Null?
    ensures VoteRequest(Some(One(Some(p))), blockId, optionId, decode) == Some(VoteMerge(BlockProps(items[i], decode), optionId))
  {
    var r := FindBlock(items, blockId);
    assert items[i] in items;
    if r.Found? {
      var k :| 0 <= k < |items| && items[k] == r.block && PassedBefore(items, blockId, k) && Prop(r.block, "id") == Some(Str(blockId));
      assert !(k < i) && !(i < k);
    }
  }

  /** `voteOnBlock` with the post as `getPost` returned it and the answer to the PATCH request. */
  method VoteOnBlock(post: Option<Processed>, blockId: string, optionId: string,
                     decode: string -> Option<Value>, encode: Value -> string, patch: Response)
    returns (ok: bool, sent: Option<string>)
    ensures sent.Some? <==> VoteRequest(post, blockId, optionId, decode).Some?
    ensures sent.Some? ==>
      sent.value == encode(Obj(map["props" := Str(encode(VoteRequest(post, blockId, optionId, decode).value))]))
    ensures ok <==> sent.Some? && patch.Answered? && Ok(patch.status)
  {
    sent := None;
    if !(post.Some? && post.value.One? && post.value.post.Some?) {
      return false, None;
    }
    var p := post.value.post.value;
    var blocks := Prop(p, "blocks");
    if !Present(blocks) || !blocks.value.Arr? {
      return false, None;
    }
    var found := FindBlock(blocks.value.items, blockId);
    if !found.Found? {
      return false, None;
    }
    var raw := Prop(found.block, "props");
    var props := if Present(raw) then raw.value else Obj(map[]);
    if props.Str? {
      var parsed := decode(props.s);
      if parsed.Some? {
        props := parsed.value;
      } else {
        props := Obj(map[]);
      }
    }
    if props.Null? {
      return false, None;
    }
    var currentVotes := VotesOf(props);
    var newVotes := Set(currentVotes, optionId, PlusOne(Prop(currentVotes, optionId)));
    var updatedProps := Set(props, "votes", newVotes);
    sent := Some(encode(Obj(map["props" := Str(encode(updatedProps))])));
    ok := patch.Answered? && Ok(patch.status);
  }
}
