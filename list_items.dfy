/**
 * The list-of-records editing shared by the poll, voting, checklist, tabs, timeline and accordion
 * blocks. Each keeps an array of objects carrying an `id` under one key of the block's `props`,
 * falls back to a default list when that key is falsy, and answers every edit with a new `props`
 * bag built by spreading the old one: `{ ...props, [key]: newList }`.
 */
module ListItems {
  import opened Base
  import opened Json
  import opened Lists

  /** Every item is an object, as the editors' item interfaces declare. */
  predicate AllObjects(items: seq<Value>) {
    forall i :: 0 <= i < |items| ==> items[i].Obj?
  }

  /** The stored list is falsy or absent (so the default is used), or an array of objects. */
  predicate Shaped(props: Value, key: string) {
    var v := Prop(props, key);
    !Present(v) || (v.value.Arr? && AllObjects(v.value.items))
  }

  /** `props?.[key] || dflt`. */
  function Items(props: Value, key: string, dflt: seq<Value>): (r: seq<Value>)
    requires Shaped(props, key)
    ensures AllObjects(dflt) ==> AllObjects(r)
  {
    var v := Prop(props, key);
    if Present(v) then v.value.items else dflt
  }

  /** `{ id, text }`, the record of a poll or voting option. */
  function TextItem(id: string, text: string): (r: Value)
    ensures r.Obj? && HasId(r, id) && Prop(r, "text") == Some(Str(text))
  {
    Obj(map["id" := Str(id), "text" := Str(text)])
  }

  /** The caption of the item added to a list of `n`: `${prefix} ${n + 1}`. */
  function Numbered(prefix: string, n: nat): string {
    prefix + " " + NatToString(n + 1)
  }

  /** `item.id === id`. */
  predicate HasId(item: Value, id: string) {
    Prop(item, "id") == Some(Str(id))
  }

  /** No two items share an `id`. */
  predicate IdsDistinct(items: seq<Value>) {
    forall i, j :: 0 <= i < j < |items| ==> Prop(items[i], "id") != Prop(items[j], "id")
  }

  /** `items.filter((x) => x.id !== id)`: every item with that id goes, every other stays. */
  function Without(items: seq<Value>, id: string): (r: seq<Value>)
    ensures |r| <= |items|
    ensures forall i :: 0 <= i < |r| ==> !HasId(r[i], id) && r[i] in items
    ensures forall i :: 0 <= i < |items| && !HasId(items[i], id) ==> items[i] in r
    ensures AllObjects(items) ==> AllObjects(r)
    ensures Subsequence(r, items)
  {
    FilterIsSubsequence(items, x => !HasId(x, id));
    Filter(items, x => !HasId(x, id))
  }

  /** A removal keeps every item without the id as many times as it occurs, and no item with it. */
  lemma WithoutCounts(items: seq<Value>, id: string)
    ensures forall x :: multiset(Without(items, id))[x] == if HasId(x, id) then 0 else multiset(items)[x]
  {
    FilterCounts(items, x => !HasId(x, id));
  }

  /** `items.map((x) => x.id === id ? { ...x, [field]: value } : x)`. */
  function Updated(items: seq<Value>, id: string, field: string, value: Value): (r: seq<Value>)
    ensures |r| == |items|
    ensures forall i :: 0 <= i < |items| && !HasId(items[i], id) ==> r[i] == items[i]
    ensures forall i :: 0 <= i < |items| && HasId(items[i], id) ==> Prop(r[i], field) == Some(value)
    ensures forall i, k :: 0 <= i < |items| && items[i].Obj? && k != field ==> Prop(r[i], k) == Prop(items[i], k)
    ensures AllObjects(items) ==> AllObjects(r)
  {
    MapWhere(items, x => HasId(x, id), x => Set(x, field, value))
  }

  /** `{ ...props, [key]: [...items, item] }`. */
  function AddItem(props: Value, key: string, dflt: seq<Value>, item: Value): (r: Value)
    requires Shaped(props, key) && AllObjects(dflt) && item.Obj?
    ensures Shaped(r, key)
    ensures forall d :: Items(r, key, d) == Items(props, key, dflt) + [item]
    ensures props.Obj? ==> forall k :: k != key ==> Prop(r, k) == Prop(props, k)
  {
    Set(props, key, Arr(Items(props, key, dflt) + [item]))
  }

  /** `{ ...props, [key]: items.filter((x) => x.id !== id) }`. */
  function RemoveItem(props: Value, key: string, dflt: seq<Value>, id: string): (r: Value)
    requires Shaped(props, key) && AllObjects(dflt)
    ensures Shaped(r, key)
    ensures forall d :: Items(r, key, d) == Without(Items(props, key, dflt), id)
    ensures props.Obj? ==> forall k :: k != key ==> Prop(r, k) == Prop(props, k)
  {
    Set(props, key, Arr(Without(Items(props, key, dflt), id)))
  }

  /** `{ ...props, [key]: items.map((x) => x.id === id ? { ...x, [field]: value } : x) }`. */
  function UpdateItem(props: Value, key: string, dflt: seq<Value>, id: string, field: string, value: Value): (r: Value)
    requires Shaped(props, key) && AllObjects(dflt)
    ensures Shaped(r, key)
    ensures forall d :: Items(r, key, d) == Updated(Items(props, key, dflt), id, field, value)
    ensures props.Obj? ==> forall k :: k != key ==> Prop(r, k) == Prop(props, k)
  {
    Set(props, key, Arr(Updated(Items(props, key, dflt), id, field, value)))
  }

  /**
   * With distinct ids a removal takes out at most one item, and exactly one when some item has
   * that id; so a remove button disabled at `length <= min` never takes the list below `min`.
   */
  lemma {:induction false} WithoutDistinct(items: seq<Value>, id: string)
    requires IdsDistinct(items)
    ensures |Without(items, id)| >= |items| - 1
    ensures (exists i :: 0 <= i < |items| && HasId(items[i], id)) ==> |Without(items, id)| == |items| - 1
    ensures (forall i :: 0 <= i < |items| ==> !HasId(items[i], id)) ==> Without(items, id) == items
  {
    if items != [] {
      var rest := items[1..];
      TailDistinct(items);
      WithoutDistinct(rest, id);
      TailIds(items, id);
      if HasId(items[0], id) {
        forall i | 0 <= i < |rest| ensures !HasId(rest[i], id) {
          assert rest[i] in rest;
        }
        assert Without(items, id) == Without(rest, id);
      } else {
        assert Without(items, id) == [items[0]] + Without(rest, id);
        assert items == [items[0]] + rest;
      }
    }
  }

  /** Where the id occurs, or does not, once the head is set aside. */
  lemma TailIds(items: seq<Value>, id: string)
    requires items != []
    ensures ((exists i :: 0 <= i < |items| && HasId(items[i], id)) && !HasId(items[0], id)) ==>
              exists i :: 0 <= i < |items[1..]| && HasId(items[1..][i], id)
    ensures (forall i :: 0 <= i < |items| ==> !HasId(items[i], id)) ==>
              forall i :: 0 <= i < |items[1..]| ==> !HasId(items[1..][i], id)
  {
    if (exists i :: 0 <= i < |items| && HasId(items[i], id)) && !HasId(items[0], id) {
      var i :| 0 <= i < |items| && HasId(items[i], id);
      assert items[1..][i - 1] == items[i];
    }
    if forall i :: 0 <= i < |items| ==> !HasId(items[i], id) {
      forall i | 0 <= i < |items[1..]| ensures !HasId(items[1..][i], id) {
        assert items[1..][i] == items[i + 1];
      }
    }
  }

  /** A remove button disabled at `length <= min` leaves at least `min` items when ids are distinct. */
  lemma RemovalKeepsMinimum(items: seq<Value>, id: string, min: nat)
    requires IdsDistinct(items) && |items| > min
    ensures |Without(items, id)| >= min
  {
    WithoutDistinct(items, id);
  }

  /** The tail of a list with distinct ids has distinct ids, none equal to the head's. */
  lemma TailDistinct(items: seq<Value>)
    requires IdsDistinct(items) && items != []
    ensures IdsDistinct(items[1..])
    ensures forall x :: x in items[1..] ==> Prop(x, "id") != Prop(items[0], "id")
  {
    var rest := items[1..];
    forall i, j | 0 <= i < j < |rest| ensures Prop(rest[i], "id") != Prop(rest[j], "id") {
      assert rest[i] == items[i + 1] && rest[j] == items[j + 1];
    }
    forall x | x in rest ensures Prop(x, "id") != Prop(items[0], "id") {
      var m :| 0 <= m < |rest| && rest[m] == x;
      assert items[m + 1] == x;
    }
  }

  /** Removing keeps ids distinct: what stays is a subsequence. */
  lemma {:induction false} WithoutKeepsDistinct(items: seq<Value>, id: string)
    requires IdsDistinct(items)
    ensures IdsDistinct(Without(items, id))
  {
    if items != [] {
      var rest := items[1..];
      TailDistinct(items);
      WithoutKeepsDistinct(rest, id);
      var w := Without(rest, id);
      if !HasId(items[0], id) {
        assert Without(items, id) == [items[0]] + w;
        ConsDistinct(items[0], w);
      } else {
        assert Without(items, id) == w;
      }
    }
  }

  /** Putting an item with a new id in front of a list with distinct ids keeps them distinct. */
  lemma ConsDistinct(x: Value, w: seq<Value>)
    requires IdsDistinct(w)
    requires forall y :: y in w ==> Prop(y, "id") != Prop(x, "id")
    ensures IdsDistinct([x] + w)
  {
    var r := [x] + w;
    forall i, j | 0 <= i < j < |r| ensures Prop(r[i], "id") != Prop(r[j], "id") {
      assert r[j] == w[j - 1];
      if i > 0 {
        assert r[i] == w[i - 1];
      }
    }
  }

  /** Editing a field other than `id` keeps the ids, so it keeps them distinct. */
  lemma UpdatedKeepsIds(items: seq<Value>, id: string, field: string, value: Value)
    requires AllObjects(items)
    ensures field != "id" ==> forall i :: 0 <= i < |items| ==> Prop(Updated(items, id, field, value)[i], "id") == Prop(items[i], "id")
    ensures field != "id" && IdsDistinct(items) ==> IdsDistinct(Updated(items, id, field, value))
  {
  }

  /** Appending an item whose id is new keeps ids distinct. */
  lemma AppendKeepsDistinct(items: seq<Value>, item: Value)
    requires IdsDistinct(items)
    requires forall i :: 0 <= i < |items| ==> Prop(items[i], "id") != Prop(item, "id")
    ensures IdsDistinct(items + [item])
  {
    var r := items + [item];
    forall i, j | 0 <= i < j < |r| ensures Prop(r[i], "id") != Prop(r[j], "id") {
      assert r[i] == items[i];
    }
  }

  /** In view mode a list editor renders nothing exactly when the stored list is an empty array. */
  function RendersNothing(props: Value, key: string, dflt: seq<Value>): (r: bool)
    requires Shaped(props, key) && dflt != []
    ensures r <==> Prop(props, key) == Some(Arr([]))
  {
    |Items(props, key, dflt)| == 0
  }
}
