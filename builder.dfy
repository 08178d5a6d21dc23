/**
 * The block editor's canvas: loading the stored blocks, updating an element, saving the canvas
 * back as blocks, and the drag-and-drop dispatcher that inserts palette blocks, deletes elements
 * dropped on the trash and reorders elements dropped on each other.
 */
module Builder {
  import opened Base
  import opened Json
  import opened Types
  import opened Sorting
  import opened Lists
  import opened Registry

  // ---------------------------------------------------------------- loading

  /** The comparator `(a, b) => a.position - b.position`. */
  predicate PositionLeq(a: Block, b: Block) {
    a.position <= b.position
  }

  lemma PositionLeqIsTotalPreorder()
    ensures TotalPreorder(PositionLeq)
  {
  }

  /** The blocks in the order the editor shows them. */
  function LoadOrder(blocks: seq<Block>): seq<Block> {
    SortBy(blocks, PositionLeq)
  }

  /** `block.id ? String(block.id) : `${block.type}_${suffix}``, with `suffix` the random part. */
  function ElementId(b: Block, suffix: string): string {
    if b.id.Some? && b.id.value != "" then b.id.value else TagName(b.typ) + "_" + suffix
  }

  function ToElement(b: Block, suffix: string): CanvasElement {
    CanvasElement(ElementId(b, suffix), b.typ, b.props, Some(b.content))
  }

  /**
   * The canvas a post opens with: one element per stored block, in load order. `rand(i)` is the
   * random suffix drawn for the i-th block in that order; nothing makes the suffixes distinct.
   */
  function LoadCanvas(blocks: Option<seq<Block>>, rand: nat -> string): (r: seq<CanvasElement>)
    ensures blocks.None? ==> r == []
    ensures blocks.Some? ==> |r| == |blocks.value|
    ensures blocks.Some? ==> forall i :: 0 <= i < |r| ==>
      var b := LoadOrder(blocks.value)[i];
      && r[i].typ == b.typ && r[i].props == b.props && r[i].content == Some(b.content)
      && (b.id.Some? && b.id.value != "" ==> r[i].id == b.id.value)
      && (b.id.None? || b.id.value == "" ==> r[i].id == TagName(b.typ) + "_" + rand(i))
  {
    match blocks
    case None => []
    case Some(bs) =>
      var sorted := LoadOrder(bs);
      var r := seq(|sorted|, i requires 0 <= i < |sorted| => ToElement(sorted[i], rand(i)));
      assert forall i :: 0 <= i < |r| ==> r[i] == ToElement(sorted[i], rand(i));
      r
  }

  /**
   * Load order is a stable sort by position: ascending positions, the same blocks, and blocks
   * that share a position kept in their stored order.
   */
  lemma {:induction false} LoadOrderIsStableSort(blocks: seq<Block>, k: Block)
    ensures forall i, j :: 0 <= i < j < |blocks| ==> LoadOrder(blocks)[i].position <= LoadOrder(blocks)[j].position
    ensures multiset(LoadOrder(blocks)) == multiset(blocks)
    ensures EqualTo(LoadOrder(blocks), k, PositionLeq) == EqualTo(blocks, k, PositionLeq)
  {
    PositionLeqIsTotalPreorder();
    SortBySorted(blocks, PositionLeq);
    SortByPermutes(blocks, PositionLeq);
    SortByStable(blocks, k, PositionLeq);
  }

  // ---------------------------------------------------------------- updating

  /** `Partial<CanvasElement>`: the fields an update sets. */
  datatype Patch = Patch(id: Option<string>, typ: Option<ElementType>, props: Option<Value>, content: Option<string>)

  /** `{ ...el, ...updates }`. */
  function Merge(el: CanvasElement, u: Patch): (r: CanvasElement)
    ensures u == Patch(None, None, None, None) ==> r == el
    ensures u.id.Some? ==> r.id == u.id.value
    ensures u.id.None? ==> r.id == el.id
    ensures u.typ.Some? ==> r.typ == u.typ.value
    ensures u.typ.None? ==> r.typ == el.typ
    ensures u.props.Some? ==> r.props == u.props.value
    ensures u.props.None? ==> r.props == el.props
    ensures u.content.Some? ==> r.content == u.content
    ensures u.content.None? ==> r.content == el.content
  {
    CanvasElement(u.id.GetOr(el.id), u.typ.GetOr(el.typ), u.props.GetOr(el.props),
                  if u.content.Some? then u.content else el.content)
  }

  /** `handleUpdateElement`: merge `u` into every element with id `id`; the rest are untouched. */
  function UpdateById(els: seq<CanvasElement>, id: string, u: Patch): (r: seq<CanvasElement>)
    ensures |r| == |els|
    ensures forall i :: 0 <= i < |els| && els[i].id == id ==> r[i] == Merge(els[i], u)
    ensures forall i :: 0 <= i < |els| && els[i].id != id ==> r[i] == els[i]
  {
    MapWhere(els, (e: CanvasElement) => e.id == id, (e: CanvasElement) => Merge(e, u))
  }

  /** An update for an id that is not on the canvas changes nothing. */
  lemma UpdateUnknownIdIdle(els: seq<CanvasElement>, id: string, u: Patch)
    requires forall i :: 0 <= i < |els| ==> els[i].id != id
    ensures UpdateById(els, id, u) == els
  {
  }

  // ---------------------------------------------------------------- saving

  /** The drafts `handleSave` sends: dense 1-based positions in canvas order, `""` for absent content, no id. */
  function SaveBlocks(els: seq<CanvasElement>): (r: seq<BlockDraft>)
    ensures |r| == |els|
    ensures forall i :: 0 <= i < |els| ==>
      && r[i].position == i + 1
      && r[i].typ == els[i].typ && r[i].props == els[i].props
      && r[i].content == (if els[i].content.Some? then els[i].content.value else "")
  {
    seq(|els|, i requires 0 <= i < |els| =>
      BlockDraft(i + 1, els[i].typ, (if els[i].content.Some? then els[i].content.value else ""), els[i].props))
  }

  /** The server kept draft `d` as block `b`, giving it a non-empty id. */
  predicate Persisted(d: BlockDraft, b: Block) {
    && b.position == d.position && b.typ == d.typ && b.content == d.content && b.props == d.props
    && b.id.Some? && b.id.value != ""
  }

  /**
   * Saving and reopening gives the canvas back, whatever order the server returns the blocks in:
   * same elements in the same order, with the server's ids and absent content read back as "".
   */
  lemma SaveLoadRoundTrip(els: seq<CanvasElement>, stored: seq<Block>, returned: seq<Block>, rand: nat -> string)
    requires |stored| == |els|
    requires forall i :: 0 <= i < |els| ==> Persisted(SaveBlocks(els)[i], stored[i])
    requires multiset(returned) == multiset(stored)
    ensures var r := LoadCanvas(Some(returned), rand);
      && |r| == |els|
      && forall i :: 0 <= i < |els| ==>
           (stored[i].id.Some? &&
            r[i] == els[i].(id := stored[i].id.value, content := Some(SaveBlocks(els)[i].content)))
  {
    PositionLeqIsTotalPreorder();
    var sorted := LoadOrder(returned);
    SortBySorted(returned, PositionLeq);
    SortByPermutes(returned, PositionLeq);
    assert StrictlySorted(stored, PositionLeq) by {
      forall i, j | 0 <= i < j < |stored| ensures !PositionLeq(stored[j], stored[i]) {
        assert stored[i].position == i + 1 && stored[j].position == j + 1;
      }
    }
    SortedUnique(stored, sorted, PositionLeq);
  }

  // ---------------------------------------------------------------- drag and drop

  /** The drop targets the canvas and the trash bin register. */
  const CanvasTarget: string := "canvas"
  const TrashTarget: string := "trash"

  /** `els.findIndex(el => el.id === id)`. */
  function FindIndex(els: seq<CanvasElement>, id: string): (r: int)
    ensures -1 <= r < |els|
    ensures r >= 0 ==> els[r].id == id && forall j :: 0 <= j < r ==> els[j].id != id
    ensures r == -1 <==> forall j :: 0 <= j < |els| ==> els[j].id != id
  {
    if els == [] then -1
    else if els[0].id == id then 0
    else
      var k := FindIndex(els[1..], id);
      if k == -1 then -1 else k + 1
  }

  function RemoveAt<T>(s: seq<T>, i: nat): (r: seq<T>)
    requires i < |s|
    ensures |r| == |s| - 1
  {
    s[..i] + s[i + 1..]
  }

  /** `newArr.splice(i, 0, x)`. */
  function InsertAt<T>(s: seq<T>, i: nat, x: T): (r: seq<T>)
    requires i <= |s|
    ensures |r| == |s| + 1 && r[i] == x
    ensures RemoveAt(r, i) == s
  {
    assert (s[..i] + [x] + s[i..])[..i] == s[..i];
    assert (s[..i] + [x] + s[i..])[i + 1..] == s[i..];
    s[..i] + [x] + s[i..]
  }

  /** `push` is an insertion at the end. */
  lemma AppendIsInsertAtEnd<T>(s: seq<T>, x: T)
    ensures s + [x] == InsertAt(s, |s|, x)
  {
    assert s[..|s|] == s;
  }

  /**
   * `arrayMove(s, from, to)` for indices on the list: the item at `from` ends at `to`, and taking
   * it out again leaves the others in their original order.
   */
  function ArrayMove<T>(s: seq<T>, from: nat, to: nat): (r: seq<T>)
    requires from < |s| && to < |s|
    ensures |r| == |s| && r[to] == s[from]
    ensures RemoveAt(r, to) == RemoveAt(s, from)
    ensures multiset(r) == multiset(s)
  {
    var rest := RemoveAt(s, from);
    assert s == s[..from] + [s[from]] + s[from + 1..];
    assert multiset(s) == multiset(rest) + multiset{s[from]};
    var r := InsertAt(rest, to, s[from]);
    assert r == rest[..to] + [s[from]] + rest[to..];
    assert rest == rest[..to] + rest[to..];
    r
  }

  /** Moving an item onto its own place changes nothing. */
  lemma ArrayMoveInPlace<T>(s: seq<T>, i: nat)
    requires i < |s|
    ensures ArrayMove(s, i, i) == s
  {
    var r := ArrayMove(s, i, i);
    assert r == RemoveAt(r, i)[..i] + [r[i]] + RemoveAt(r, i)[i..];
    assert s == RemoveAt(s, i)[..i] + [s[i]] + RemoveAt(s, i)[i..];
  }

  /** The element a palette key creates: id `<type>_<now>`, empty props, no content. */
  function NewElement(key: string, now: nat): (r: CanvasElement)
    requires IsPaletteKey(key)
    ensures ParseTag(key) == Some(r.typ) && r.props == Obj(map[]) && r.content.None?
    ensures r.id == key + "_" + NatToString(now)
  {
    PaletteKeyIsTag(key);
    CanvasElement(key + "_" + NatToString(now), ParseTag(key).value, Obj(map[]), None)
  }

  /** Where a dropped palette block goes: after its target, or at the end for the canvas or an unknown target. */
  function InsertPosition(els: seq<CanvasElement>, over: string): (k: nat)
    ensures k <= |els|
    ensures over == CanvasTarget || FindIndex(els, over) == -1 ==> k == |els|
    ensures over != CanvasTarget && FindIndex(els, over) != -1 ==> k == FindIndex(els, over) + 1
  {
    if over == CanvasTarget then |els|
    else
      var i := FindIndex(els, over);
      if i != -1 then i + 1 else |els|
  }

  /** `items.filter(item => item.id !== id)`. */
  function RemoveId(els: seq<CanvasElement>, id: string): (r: seq<CanvasElement>)
    ensures forall i :: 0 <= i < |r| ==> r[i].id != id
    ensures Subsequence(r, els)
    ensures forall i :: 0 <= i < |els| && els[i].id != id ==> els[i] in r
    ensures forall e :: multiset(r)[e] == if e.id != id then multiset(els)[e] else 0
  {
    FilterIsSubsequence(els, (e: CanvasElement) => e.id != id);
    FilterCounts(els, (e: CanvasElement) => e.id != id);
    Filter(els, (e: CanvasElement) => e.id != id)
  }

  /**
   * The canvas member move is defined: the dragged element and its target are both on the
   * canvas. (With either missing the library is called with index -1, which is not modelled.)
   */
  predicate MoveDefined(els: seq<CanvasElement>, active: string, over: string) {
    IsPaletteKey(active) || over == TrashTarget || active == over
    || (FindIndex(els, active) != -1 && FindIndex(els, over) != -1)
  }

  /** The canvas after `handleDragEnd` for a drag of `active` released over `over` at time `now`. */
  function DragEnd(els: seq<CanvasElement>, active: string, over: Option<string>, now: nat): (r: seq<CanvasElement>)
    requires over.Some? ==> MoveDefined(els, active, over.value)
    ensures over.None? ==> r == els
    ensures over == Some(TrashTarget) && IsPaletteKey(active) ==> r == els
    ensures over == Some(TrashTarget) && !IsPaletteKey(active) ==> r == RemoveId(els, active)
    ensures over.Some? && over.value != TrashTarget && IsPaletteKey(active) ==>
      var k := InsertPosition(els, over.value);
      r == InsertAt(els, k, NewElement(active, now))
    ensures over.Some? && over.value != TrashTarget && !IsPaletteKey(active) ==>
      && |r| == |els| && multiset(r) == multiset(els)
      && (active == over.value ==> r == els)
      && (active != over.value ==>
            var from, to := FindIndex(els, active), FindIndex(els, over.value);
            r[to] == els[from] && RemoveAt(r, to) == RemoveAt(els, from))
  {
    if over.None? then els
    else
      var target := over.value;
      if target == TrashTarget then (if IsPaletteKey(active) then els else RemoveId(els, active))
      else if IsPaletteKey(active) then
        var el := NewElement(active, now);
        AppendIsInsertAtEnd(els, el);
        if target == CanvasTarget then els + [el]
        else
          var index := FindIndex(els, target);
          if index != -1 then InsertAt(els, index + 1, el) else els + [el]
      else if active != target then ArrayMove(els, FindIndex(els, active), FindIndex(els, target))
      else els
  }

  /** Dropping a palette block never disturbs the elements already on the canvas. */
  lemma PaletteDropKeepsCanvas(els: seq<CanvasElement>, active: string, over: string, now: nat)
    requires IsPaletteKey(active) && over != TrashTarget
    ensures var r := DragEnd(els, active, Some(over), now);
      && |r| == |els| + 1
      && r[InsertPosition(els, over)] == NewElement(active, now)
      && RemoveAt(r, InsertPosition(els, over)) == els
  {
  }

  // ---------------------------------------------------------------- the component state

  datatype Toast = Success(message: string) | Failure(message: string)

  /** The editor component's state. */
  class BuilderState {
    var canvasElements: seq<CanvasElement>
    var activeId: Option<string>
    var isSaving: bool
    const postId: Value

    /** The initial state for `post`: its blocks loaded, nothing dragged, not saving. */
    constructor (post: Post, rand: nat -> string)
      ensures canvasElements == LoadCanvas(post.blocks, rand)
      ensures activeId == None && !isSaving && postId == post.id
    {
      canvasElements := LoadCanvas(post.blocks, rand);
      activeId := None;
      isSaving := false;
      postId := post.id;
    }

    method HandleUpdateElement(id: string, u: Patch)
      modifies this
      ensures canvasElements == UpdateById(old(canvasElements), id, u)
      ensures activeId == old(activeId) && isSaving == old(isSaving)
    {
      canvasElements := UpdateById(canvasElements, id, u);
    }

    /** The start of `handleSave`: raises the saving flag and returns the request it sends. */
    method BeginSave() returns (target: Value, blocks: seq<BlockDraft>)
      modifies this
      ensures isSaving
      ensures target == postId && blocks == SaveBlocks(canvasElements)
      ensures canvasElements == old(canvasElements) && activeId == old(activeId)
    {
      isSaving := true;
      target := postId;
      blocks := SaveBlocks(canvasElements);
    }

    /** The end of `handleSave` once `saveBlocks` has answered: the flag drops whatever the outcome. */
    method FinishSave(success: bool) returns (toast: Toast)
      modifies this
      ensures !isSaving
      ensures toast == if success then Success("Salvo com sucesso!") else Failure("Erro ao salvar.")
      ensures canvasElements == old(canvasElements) && activeId == old(activeId)
    {
      if success {
        toast := Success("Salvo com sucesso!");
      } else {
        toast := Failure("Erro ao salvar.");
      }
      isSaving := false;
    }

    /** `handleDragStart`: records the dragged id, or nothing for an empty one. */
    method HandleDragStart(active: Option<string>)
      modifies this
      ensures activeId == if active.Some? && active.value != "" then active else None
      ensures canvasElements == old(canvasElements) && isSaving == old(isSaving)
    {
      if active.Some? && active.value != "" {
        activeId := active;
      } else {
        activeId := None;
      }
    }

    /** `handleDragEnd`: applies the drop and clears the dragged id on every path. */
    method HandleDragEnd(active: string, over: Option<string>, now: nat)
      requires over.Some? ==> MoveDefined(canvasElements, active, over.value)
      modifies this
      ensures canvasElements == DragEnd(old(canvasElements), active, over, now)
      ensures activeId == None && isSaving == old(isSaving)
    {
      if over.None? {
        activeId := None;
        return;
      }
      var target := over.value;
      if target == TrashTarget {
        if !IsPaletteKey(active) {
          canvasElements := RemoveId(canvasElements, active);
        }
        activeId := None;
        return;
      }
      if IsPaletteKey(active) {
        var newElement := NewElement(active, now);
        if target == CanvasTarget {
          canvasElements := canvasElements + [newElement];
        } else {
          var index := FindIndex(canvasElements, target);
          if index != -1 {
            var newArr := canvasElements;
            newArr := InsertAt(newArr, index + 1, newElement);
            canvasElements := newArr;
          } else {
            canvasElements := canvasElements + [newElement];
          }
        }
      } else if active != target {
        var oldIndex := FindIndex(canvasElements, active);
        var newIndex := FindIndex(canvasElements, target);
        canvasElements := ArrayMove(canvasElements, oldIndex, newIndex);
      }
      activeId := None;
    }
  }
}
