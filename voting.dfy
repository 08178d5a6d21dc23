/**
 * The voting block: options under `props.options` and a tally under `props.votes` (option id to
 * count). The editor adds, removes and renames options; a reader's vote raises one count, either
 * through the update callback or, in view mode on a post page, once per reader.
 */
module Voting {
  import opened Base
  import opened Json
  import opened ListItems
  import Registry

  const OptionsKey: string := "options"
  const VotesKey: string := "votes"

  /** `(element.props as VotingProps) || {}`. */
  function PropsOf(elementProps: Value): (r: Value)
    ensures Truthy(elementProps) ==> r == elementProps
    ensures !Truthy(elementProps) ==> r == Obj(map[])
  {
    if Truthy(elementProps) then elementProps else Obj(map[])
  }

  /** The two options a vote starts with. */
  const DefaultOptions: seq<Value> := [TextItem("1", "Sim"), TextItem("2", "Não")]

  /** `props.options || [defaults]`. */
  function Options(props: Value): (r: seq<Value>)
    requires Shaped(props, OptionsKey)
    ensures AllObjects(r)
    ensures !Present(Prop(props, OptionsKey)) ==> r == DefaultOptions
  {
    Items(props, OptionsKey, DefaultOptions)
  }

  /** `props.votes || {}`. */
  function Votes(props: Value): (r: Value)
    ensures Present(Prop(props, VotesKey)) ==> Some(r) == Prop(props, VotesKey)
    ensures !Present(Prop(props, VotesKey)) ==> r == Obj(map[])
  {
    var v := Prop(props, VotesKey);
    if Present(v) then v.value else Obj(map[])
  }

  /** `handleAddOption`: "Opção n+1" appended to the options. */
  function AddOption(elementProps: Value, freshId: string): (r: Value)
    requires Shaped(PropsOf(elementProps), OptionsKey)
    ensures Shaped(r, OptionsKey)
    ensures Options(r) == Options(PropsOf(elementProps)) + [TextItem(freshId, Numbered("Opção", |Options(PropsOf(elementProps))|))]
    ensures PropsOf(elementProps).Obj? ==> forall k :: k != OptionsKey ==> Prop(r, k) == Prop(PropsOf(elementProps), k)
  {
    var props := PropsOf(elementProps);
    AddItem(props, OptionsKey, DefaultOptions, TextItem(freshId, Numbered("Opção", |Options(props)|)))
  }

  /**
   * `handleRemoveOption`: the option goes and its key is deleted from a copy of `votes`; every
   * other count is copied unchanged.
   */
  function RemoveOption(elementProps: Value, id: string): (r: Value)
    requires Shaped(PropsOf(elementProps), OptionsKey)
    ensures Shaped(r, OptionsKey)
    ensures Options(r) == Without(Options(PropsOf(elementProps)), id)
    ensures Prop(r, VotesKey).Some? && Prop(r, VotesKey).value.Obj?
    ensures Prop(Prop(r, VotesKey).value, id) == None
    ensures var votes := Votes(PropsOf(elementProps));
      forall k :: k != id && (votes.Obj? || k != "length") ==> Prop(Prop(r, VotesKey).value, k) == Prop(votes, k)
    ensures PropsOf(elementProps).Obj? ==>
              forall k :: k != OptionsKey && k != VotesKey ==> Prop(r, k) == Prop(PropsOf(elementProps), k)
  {
    var props := PropsOf(elementProps);
    var newVotes := Obj(Spread(Votes(props)) - {id});
    var removed := RemoveItem(props, OptionsKey, DefaultOptions, id);
    var r := Set(removed, VotesKey, newVotes);
    assert Prop(r, OptionsKey) == Prop(removed, OptionsKey);
    assert Options(r) == Items(removed, OptionsKey, DefaultOptions);
    SpreadWithout(Votes(props), id);
    r
  }

  /** A copy of an object's own properties with one key deleted keeps every other property. */
  lemma SpreadWithout(v: Value, id: string)
    ensures Prop(Obj(Spread(v) - {id}), id) == None
    ensures forall k :: k != id && (v.Obj? || k != "length") ==> Prop(Obj(Spread(v) - {id}), k) == Prop(v, k)
  {
  }

  /** `handleUpdateOption`: only the matching options' text changes. */
  function UpdateOption(elementProps: Value, id: string, text: string): (r: Value)
    requires Shaped(PropsOf(elementProps), OptionsKey)
    ensures Shaped(r, OptionsKey)
    ensures Options(r) == Updated(Options(PropsOf(elementProps)), id, "text", Str(text))
    ensures PropsOf(elementProps).Obj? ==> forall k :: k != OptionsKey ==> Prop(r, k) == Prop(PropsOf(elementProps), k)
    ensures Votes(r) == Votes(PropsOf(elementProps))
  {
    UpdateItem(PropsOf(elementProps), OptionsKey, DefaultOptions, id, "text", Str(text))
  }

  /** The remove button is enabled only while more than two options remain. */
  predicate CanRemove(options: seq<Value>) {
    |options| > 2
  }

  /** A tally of counts by option id. */
  type Tally = map<string, int>

  /** The sum of all counts in a tally. */
  ghost function Sum(m: Tally): int
    decreases |m|
  {
    if m == map[] then 0
    else
      var k :| k in m;
      m[k] + Sum(m - {k})
  }

  /** The sum does not depend on which key is taken out first. */
  lemma {:induction false} SumRemove(m: Tally, k: string)
    requires k in m
    ensures Sum(m) == m[k] + Sum(m - {k})
    decreases |m|
  {
    var j :| j in m && Sum(m) == m[j] + Sum(m - {j});
    if j != k {
      SumRemove(m - {j}, k);
      SumRemove(m - {k}, j);
      assert m - {j} - {k} == m - {k} - {j};
    }
  }

  /** `Object.values(localVotes).reduce((acc, curr) => acc + curr, 0)`. */
  method TotalVotes(votes: Tally) returns (total: int)
    ensures total == Sum(votes)
  {
    total := 0;
    var rest := votes;
    while rest != map[]
      invariant total + Sum(rest) == Sum(votes)
      decreases |rest|
    {
      var k :| k in rest;
      SumRemove(rest, k);
      total := total + rest[k];
      rest := rest - {k};
    }
  }

  /** `localVotes[k] || 0`. */
  function Count(m: Tally, k: string): (r: int)
    ensures k in m ==> r == m[k]
    ensures k !in m ==> r == 0
  {
    if k in m then m[k] else 0
  }

  /** `{ ...localVotes, [optionId]: currentCount + 1 }`. */
  function Vote(m: Tally, optionId: string): (r: Tally)
    ensures optionId in r && r[optionId] == Count(m, optionId) + 1
    ensures forall k :: k != optionId ==> (k in r <==> k in m) && (k in m ==> r[k] == m[k])
  {
    m[optionId := Count(m, optionId) + 1]
  }

  /** A vote raises the total by exactly one. */
  lemma VoteAddsOne(m: Tally, optionId: string)
    ensures Sum(Vote(m, optionId)) == Sum(m) + 1
  {
    var r := Vote(m, optionId);
    SumRemove(r, optionId);
    if optionId in m {
      SumRemove(m, optionId);
      assert r - {optionId} == m - {optionId};
    } else {
      assert r - {optionId} == m;
    }
  }

  /** `totalVotes > 0 ? Math.round((count / totalVotes) * 100) : 0`, rounded in exact arithmetic. */
  function Percentage(count: int, total: int): (r: int)
    ensures total <= 0 ==> r == 0
    ensures total > 0 && 0 <= count <= total ==> 0 <= r <= 100
    ensures total > 0 ==> 2 * total * r <= 200 * count + total < 2 * total * (r + 1)
  {
    if total > 0 then
      var r := (200 * count + total) / (2 * total);
      RoundingBounds(200 * count + total, 2 * total);
      if 0 <= count <= total then
        PercentRange(count, total, r);
        r
      else r
    else 0
  }

  /** Euclidean division brackets the dividend between two multiples of the divisor. */
  lemma RoundingBounds(a: int, d: int)
    requires d > 0
    ensures d * (a / d) <= a < d * (a / d + 1)
  {
  }

  /** A share of at most the whole rounds to a percentage between 0 and 100. */
  lemma PercentRange(count: int, total: int, r: int)
    requires 0 <= count <= total && total > 0
    requires 2 * total * r <= 200 * count + total < 2 * total * (r + 1)
    ensures 0 <= r <= 100
  {
    if r < 0 {
      assert 2 * total * (r + 1) <= 0 by {
        assert r + 1 <= 0;
        MulNonPositive(2 * total, r + 1);
      }
    }
    if r > 100 {
      assert 2 * total * r >= 2 * total * 101 by {
        MulMonotone(2 * total, 101, r);
      }
    }
  }

  lemma MulNonPositive(a: int, b: int)
    requires a > 0 && b <= 0
    ensures a * b <= 0
  {
  }

  lemma MulMonotone(a: int, b: int, c: int)
    requires a > 0 && b <= c
    ensures a * b <= a * c
  {
  }

  /** A tally as the `votes` object sent with an update. */
  function TallyValue(m: Tally): (r: Value)
    ensures r.Obj? && forall k :: Prop(r, k) == if k in m then Some(Num(m[k])) else None
  {
    Obj(map k | k in m :: Num(m[k]))
  }

  /** One mounted voting block: the local tally and whether this reader has voted. */
  class VotingWidget {
    var localVotes: Tally
    var hasVoted: bool
    const mode: Registry.Mode
    const hasOnUpdate: bool
    /** The post id from the route; `postId` is truthy when it is present and not empty. */
    const postId: Option<string>

    constructor(votes: Tally, mode: Registry.Mode, hasOnUpdate: bool, postId: Option<string>)
      ensures localVotes == votes && !hasVoted
      ensures this.mode == mode && this.hasOnUpdate == hasOnUpdate && this.postId == postId
    {
      localVotes := votes;
      hasVoted := false;
      this.mode := mode;
      this.hasOnUpdate := hasOnUpdate;
      this.postId := postId;
    }

    /** The effect that copies new `votes` from the props into the local tally. */
    method SyncVotes(votes: Tally)
      modifies this
      ensures localVotes == votes && hasVoted == old(hasVoted)
    {
      localVotes := votes;
    }

    /** The effect that restores the "already voted" mark a reader's browser keeps for this block. */
    method RestoreVoted(stored: bool)
      modifies this
      ensures hasVoted == (old(hasVoted) || (stored && mode == Registry.View && postId.Some? && postId.value != ""))
      ensures localVotes == old(localVotes)
    {
      if mode == Registry.View && postId.Some? && postId.value != "" && stored {
        hasVoted := true;
      }
    }

    /**
     * `handleVote`: ignored once this reader has voted in view mode; otherwise one count goes up.
     * With the callback the new tally is sent as props; without it, in view mode on a post page,
     * the reader is marked as having voted and the vote is sent to the server.
     */
    method HandleVote(elementProps: Value, optionId: string) returns (update: Option<Value>, sent: bool)
      modifies this
      ensures old(hasVoted) && mode == Registry.View ==>
        localVotes == old(localVotes) && hasVoted && update.None? && !sent
      ensures !(old(hasVoted) && mode == Registry.View) ==>
        localVotes == Vote(old(localVotes), optionId)
        && (hasOnUpdate ==> update == Some(Set(PropsOf(elementProps), VotesKey, TallyValue(localVotes))) && !sent
                            && hasVoted == old(hasVoted))
        && (!hasOnUpdate ==> update.None?
                             && sent == (mode == Registry.View && postId.Some? && postId.value != "")
                             && hasVoted == (old(hasVoted) || sent))
    {
      update, sent := None, false;
      if hasVoted && mode == Registry.View {
        return;
      }
      var currentCount := Count(localVotes, optionId);
      var newVotes := localVotes[optionId := currentCount + 1];
      localVotes := newVotes;
      if hasOnUpdate {
        update := Some(Set(PropsOf(elementProps), VotesKey, TallyValue(newVotes)));
      } else if mode == Registry.View && postId.Some? && postId.value != "" {
        hasVoted := true;
        sent := true;
      }
    }
  }

  /** In view mode a reader without the callback gets exactly one vote in: the second is ignored. */
  method VoteTwice(w: VotingWidget, props: Value, first: string, second: string) returns (sent1: bool, sent2: bool)
    requires w.mode == Registry.View && !w.hasOnUpdate && !w.hasVoted
    requires w.postId.Some? && w.postId.value != ""
    modifies w
    ensures sent1 && !sent2
    ensures w.localVotes == Vote(old(w.localVotes), first)
    ensures Sum(w.localVotes) == Sum(old(w.localVotes)) + 1
  {
    var u1, u2;
    u1, sent1 := w.HandleVote(props, first);
    u2, sent2 := w.HandleVote(props, second);
    VoteAddsOne(old(w.localVotes), first);
  }
}
