/**
 * The post settings dialog: it edits a copy of a post's title, content, tags and progress colour,
 * shows the chosen tags and the category options in a fixed order, and saves through the
 * post-update action, reporting the saved post back to the page.
 */
module SettingsModal {
  import opened Base
  import opened Json
  import opened Lists
  import opened Sorting
  import opened Types
  import opened Categories
  import Actions
  import Builder

  const DefaultProgressColor: string := "#6366f1"

  /** `post.props?.progress_color || "#6366f1"`. */
  function ProgressColor(props: Option<Value>): (r: Value)
    ensures props.Some? && Present(Prop(props.value, "progress_color")) ==> Some(r) == Prop(props.value, "progress_color")
    ensures props.None? || !Present(Prop(props.value, "progress_color")) ==> r == Str(DefaultProgressColor)
  {
    if props.Some? && Present(Prop(props.value, "progress_color")) then Prop(props.value, "progress_color").value
    else Str(DefaultProgressColor)
  }

  // ---------------------------------------------------------------- tag edits

  /** `handleToggleTag`: a chosen tag goes, every copy of it; a new one is added at the end. */
  function ToggleTag(tags: seq<string>, tagKey: string): (r: seq<string>)
    ensures tagKey in tags ==> tagKey !in r && Subsequence(r, tags)
    ensures tagKey in tags ==> forall t :: t != tagKey ==> multiset(r)[t] == multiset(tags)[t]
    ensures tagKey !in tags ==> r == tags + [tagKey]
    ensures forall t :: t in r <==> (t in tags) != (t == tagKey)
  {
    if tagKey in tags then RemoveTag(tags, tagKey) else tags + [tagKey]
  }

  /** `handleRemoveTag`: every copy of the tag goes; the others keep their order and their copies. */
  function RemoveTag(tags: seq<string>, tagToRemove: string): (r: seq<string>)
    ensures tagToRemove !in r
    ensures Subsequence(r, tags)
    ensures forall t :: t != tagToRemove ==> multiset(r)[t] == multiset(tags)[t]
    ensures forall t :: t in r <==> t in tags && t != tagToRemove
  {
    var r := Filter(tags, (t: string) => t != tagToRemove);
    FilterIsSubsequence(tags, (t: string) => t != tagToRemove);
    forall t ensures multiset(r)[t] == if t != tagToRemove then multiset(tags)[t] else 0 {
      FilterCount(tags, (t: string) => t != tagToRemove, t);
    }
    r
  }

  /** Choosing a new tag and then unchoosing it restores the list. */
  lemma {:induction false} ToggleTwice(tags: seq<string>, tagKey: string)
    requires tagKey !in tags
    ensures ToggleTag(ToggleTag(tags, tagKey), tagKey) == tags
  {
    var r := RemoveTag(tags + [tagKey], tagKey);
    FilterAppend(tags, tagKey);
  }

  /** Filtering out a tag that only the appended copy holds gives back the list before it. */
  lemma {:induction false} FilterAppend(tags: seq<string>, tagKey: string)
    requires tagKey !in tags
    ensures Filter(tags + [tagKey], (t: string) => t != tagKey) == tags
    decreases |tags|
  {
    if tags == [] {
      assert [tagKey][1..] == [];
    } else {
      assert (tags + [tagKey])[1..] == tags[1..] + [tagKey];
      FilterAppend(tags[1..], tagKey);
      assert [tags[0]] + tags[1..] == tags;
    }
  }

  // ---------------------------------------------------------------- display order

  /**
   * `catA?.priority`: the category entries carry no `priority` field, so the read is always
   * `undefined` and no tag ever sorts ahead on priority.
   */
  predicate Priority(c: Option<Category>) {
    false
  }

  /** `catA?.label || a`: the caption of a known tag, the tag itself otherwise. */
  function DisplayName(tag: string): (r: string)
    ensures Lookup(tag).None? ==> r == tag
    ensures Lookup(tag).Some? ==> r == Lookup(tag).value.caption
  {
    TableShape();
    var c := Lookup(tag);
    if c.Some? && c.value.caption != "" then c.value.caption else tag
  }

  /** The comparator of the selected tags' display: priority first, then by name. */
  predicate DisplayLeq(a: string, b: string) {
    var pa := Priority(Lookup(a));
    var pb := Priority(Lookup(b));
    if pa && !pb then true
    else if !pa && pb then false
    else LexLeq(DisplayName(a), DisplayName(b))
  }

  lemma DisplayLeqIsTotalPreorder()
    ensures TotalPreorder(DisplayLeq)
    ensures forall a, b :: DisplayLeq(a, b) == LexLeq(DisplayName(a), DisplayName(b))
  {
    LexLeqIsTotalPreorder();
  }

  /**
   * `[...tags].sort(...)`: the selected tags in display order, a rearrangement of the stored list
   * (which is left as it is), with tags of the same name in their stored order.
   */
  function SortedSelectedTags(tags: seq<string>): (r: seq<string>)
    ensures multiset(r) == multiset(tags)
    ensures Sorted(r, DisplayLeq)
    ensures forall k :: EqualTo(r, k, DisplayLeq) == EqualTo(tags, k, DisplayLeq)
  {
    DisplayLeqIsTotalPreorder();
    SortByPermutes(tags, DisplayLeq);
    SortBySorted(tags, DisplayLeq);
    forall k ensures EqualTo(SortBy(tags, DisplayLeq), k, DisplayLeq) == EqualTo(tags, k, DisplayLeq) {
      SortByStable(tags, k, DisplayLeq);
    }
    SortBy(tags, DisplayLeq)
  }

  /** As no category has a priority, the names shown are exactly the tag names in sorted order. */
  lemma DisplayIsByName(tags: seq<string>)
    ensures Project(SortedSelectedTags(tags), DisplayName) == SortBy(Project(tags, DisplayName), LexLeq)
  {
    DisplayLeqIsTotalPreorder();
    SortByProject(tags, DisplayName, DisplayLeq, LexLeq);
  }

  /** An entry of the category picker. */
  datatype CategoryOption = CategoryOption(value: string, caption: string, color: string, isDark: bool)

  /** The comparator of the category picker: priority first, then by caption. */
  predicate EntryLeq(a: Entry, b: Entry) {
    var pa := Priority(Some(a.category));
    var pb := Priority(Some(b.category));
    if pa && !pb then true
    else if !pa && pb then false
    else LexLeq(a.category.caption, b.category.caption)
  }

  lemma EntryLeqIsTotalPreorder()
    ensures TotalPreorder(EntryLeq)
  {
    LexLeqIsTotalPreorder();
  }

  function ToOption(e: Entry): CategoryOption {
    CategoryOption(e.key, e.category.caption, e.category.color, e.category.isDark)
  }

  /** The picker comparator read on the options: by caption, as no entry has a priority. */
  predicate OptionLeq(a: CategoryOption, b: CategoryOption) {
    LexLeq(a.caption, b.caption)
  }

  /** `Object.entries(table).sort(...).map(...)`: every entry once, ordered by caption. */
  function OptionsOf(entries: seq<Entry>): (r: seq<CategoryOption>)
    ensures |r| == |entries|
    ensures Sorted(r, OptionLeq)
    ensures multiset(r) == multiset(Project(entries, ToOption))
  {
    var r := Project(SortBy(entries, EntryLeq), ToOption);
    SortByProject(entries, ToOption, EntryLeq, OptionLeq);
    LexLeqIsTotalPreorder();
    assert TotalPreorder(OptionLeq);
    SortBySorted(Project(entries, ToOption), OptionLeq);
    SortByPermutes(Project(entries, ToOption), OptionLeq);
    r
  }

  /** `categoryOptions`: the picker lists the whole table. */
  function CategoryOptions(): seq<CategoryOption> {
    OptionsOf(Table)
  }

  // ---------------------------------------------------------------- the dialog

  datatype SaveOutcome = Saved | Rejected | Threw

  /** `{ ...post, title, content, tags, props: { ...post.props, progress_color } }`. */
  function Reported(post: Post, title: string, content: string, tags: seq<string>, progressColor: Value): (r: Post)
    ensures r.title == title && r.content == content && r.tags == Some(tags)
    ensures r.props.Some? && Prop(r.props.value, "progress_color") == Some(progressColor)
    ensures post.props.Some? && post.props.value.Obj? ==>
      forall k :: k != "progress_color" ==> Prop(r.props.value, k) == Prop(post.props.value, k)
    ensures r.id == post.id && r.blocks == post.blocks && r.likes == post.likes && r.date == post.date
  {
    post.(title := title, content := content, tags := Some(tags),
          props := Some(Set(post.props.GetOr(Null), "progress_color", progressColor)))
  }

  /** The dialog's state for one post. */
  class PostSettings {
    var open: bool
    var isLoading: bool
    var title: string
    var content: string
    var tags: seq<string>
    var progressColor: Value
    const post: Post
    const hasOnUpdate: bool

    constructor(post: Post, hasOnUpdate: bool)
      ensures !open && !isLoading
      ensures title == post.title && content == post.content && tags == post.tags.GetOr([])
      ensures progressColor == ProgressColor(post.props)
      ensures this.post == post && this.hasOnUpdate == hasOnUpdate
    {
      open := false;
      isLoading := false;
      title := post.title;
      content := post.content;
      tags := post.tags.GetOr([]);
      progressColor := ProgressColor(post.props);
      this.post := post;
      this.hasOnUpdate := hasOnUpdate;
    }

    method HandleToggleTag(tagKey: string)
      modifies this
      ensures tags == ToggleTag(old(tags), tagKey)
      ensures open == old(open) && isLoading == old(isLoading) && title == old(title)
      ensures content == old(content) && progressColor == old(progressColor)
    {
      if tagKey in tags {
        tags := Filter(tags, (t: string) => t != tagKey);
      } else {
        tags := tags + [tagKey];
      }
    }

    method HandleRemoveTag(tagToRemove: string)
      modifies this
      ensures tags == RemoveTag(old(tags), tagToRemove)
      ensures open == old(open) && isLoading == old(isLoading) && title == old(title)
      ensures content == old(content) && progressColor == old(progressColor)
    {
      tags := Filter(tags, (t: string) => t != tagToRemove);
    }

    /** A colour swatch click. */
    method SetProgressColor(colorValue: string)
      modifies this
      ensures progressColor == Str(colorValue)
      ensures open == old(open) && isLoading == old(isLoading) && title == old(title)
      ensures content == old(content) && tags == old(tags)
    {
      progressColor := Str(colorValue);
    }

    /**
     * The start of `handleSave`: the loading flag goes up and the update is sent for
     * `String(post.id)`, carrying the edited fields and a `props` holding only the progress colour.
     */
    method BeginSave() returns (postId: string, request: Actions.PostUpdate)
      modifies this
      ensures isLoading
      ensures postId == ToJsString(post.id)
      ensures request == Actions.PostUpdate(title, content, tags, None,
                                            Some(Obj(map["progress_color" := progressColor])))
      ensures open == old(open) && title == old(title) && content == old(content)
      ensures tags == old(tags) && progressColor == old(progressColor)
    {
      isLoading := true;
      postId := ToJsString(post.id);
      request := Actions.PostUpdate(title, content, tags, None, Some(Obj(map["progress_color" := progressColor])));
    }

    /**
     * The end of `handleSave`: on success the saved post is reported (when a callback is wired)
     * and the dialog closes; on failure or an exception an error is shown and the dialog stays.
     * The loading flag drops in every case.
     */
    method FinishSave(outcome: SaveOutcome) returns (toast: Builder.Toast, reported: Option<Post>)
      modifies this
      ensures !isLoading
      ensures open == (old(open) && outcome != Saved)
      ensures outcome == Saved ==> toast == Builder.Success("Post atualizado com sucesso!")
      ensures outcome != Saved ==> toast == Builder.Failure("Erro ao atualizar post.")
      ensures reported == if outcome == Saved && hasOnUpdate then Some(Reported(post, title, content, tags, progressColor)) else None
      ensures title == old(title) && content == old(content) && tags == old(tags) && progressColor == old(progressColor)
    {
      reported := None;
      if outcome == Saved {
        toast := Builder.Success("Post atualizado com sucesso!");
        if hasOnUpdate {
          reported := Some(Reported(post, title, content, tags, progressColor));
        }
        open := false;
      } else {
        toast := Builder.Failure("Erro ao atualizar post.");
      }
      isLoading := false;
    }
  }

  /**
   * The post reported after a save opens the dialog in the state it was saved from: same title,
   * content and tags, and the same progress colour whenever that colour is set.
   */
  lemma ReportedReopens(post: Post, title: string, content: string, tags: seq<string>, progressColor: Value)
    requires Truthy(progressColor)
    ensures var r := Reported(post, title, content, tags, progressColor);
      r.title == title && r.content == content && r.tags.GetOr([]) == tags
      && ProgressColor(r.props) == progressColor
  {
  }

  /** The server receives no other prop than the progress colour, whatever the post held. */
  lemma RequestPropsOnlyColor(progressColor: Value, k: string)
    requires k != "progress_color"
    ensures Prop(Obj(map["progress_color" := progressColor]), k) == None
    ensures Prop(Obj(map["progress_color" := progressColor]), "progress_color") == Some(progressColor)
  {
  }
}
