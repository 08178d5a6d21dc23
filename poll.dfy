/**
 * The poll block: a question (the element's content), a list of options under `props.options`,
 * and an optional `props.correctOptionId`. In edit mode the handlers answer with new props; in
 * view mode a reader picks one option, every option is then marked, and "retry" clears the pick.
 */
module Poll {
  import opened Base
  import opened Json
  import opened Lists
  import opened ListItems

  const OptionsKey: string := "options"
  const CorrectKey: string := "correctOptionId"

  /** The two options a poll starts with. */
  const DefaultOptions: seq<Value> := [TextItem("1", "Opção 1"), TextItem("2", "Opção 2")]

  /** `element.props?.options || [defaults]`. */
  function Options(props: Value): (r: seq<Value>)
    requires Shaped(props, OptionsKey)
    ensures AllObjects(r)
    ensures !Present(Prop(props, OptionsKey)) ==>
              r == DefaultOptions && |r| == 2 && HasId(r[0], "1") && HasId(r[1], "2")
  {
    Items(props, OptionsKey, DefaultOptions)
  }

  /** `handleAddOption`: one option appended, earlier options and every other prop unchanged. */
  function AddOption(props: Value, freshId: string): (r: Value)
    requires Shaped(props, OptionsKey)
    ensures Shaped(r, OptionsKey)
    ensures Options(r) == Options(props) + [TextItem(freshId, Numbered("Opção", |Options(props)|))]
    ensures props.Obj? ==> forall k :: k != OptionsKey ==> Prop(r, k) == Prop(props, k)
  {
    AddItem(props, OptionsKey, DefaultOptions, TextItem(freshId, Numbered("Opção", |Options(props)|)))
  }

  /**
   * `handleRemoveOption`: the options with that id go; `correctOptionId` is cleared when it named
   * the removed option and kept otherwise.
   */
  function RemoveOption(props: Value, id: string): (r: Value)
    requires Shaped(props, OptionsKey)
    ensures Shaped(r, OptionsKey)
    ensures Options(r) == Without(Options(props), id)
    ensures Prop(r, CorrectKey) == if Prop(props, CorrectKey) == Some(Str(id)) then None else Prop(props, CorrectKey)
    ensures props.Obj? ==> forall k :: k != OptionsKey && k != CorrectKey ==> Prop(r, k) == Prop(props, k)
  {
    var correct := Prop(props, CorrectKey);
    var next := RemoveItem(props, OptionsKey, DefaultOptions, id);
    With(next, CorrectKey, if correct == Some(Str(id)) then None else correct)
  }

  /** `handleUpdateOption`: only the matching options' text changes. */
  function UpdateOption(props: Value, id: string, text: string): (r: Value)
    requires Shaped(props, OptionsKey)
    ensures Shaped(r, OptionsKey)
    ensures Options(r) == Updated(Options(props), id, "text", Str(text))
    ensures props.Obj? ==> forall k :: k != OptionsKey ==> Prop(r, k) == Prop(props, k)
  {
    UpdateItem(props, OptionsKey, DefaultOptions, id, "text", Str(text))
  }

  /** `handleSetCorrectOption`: choosing the current correct id clears it, any other id sets it. */
  function SetCorrectOption(props: Value, id: string): (r: Value)
    ensures Prop(r, CorrectKey) == if Prop(props, CorrectKey) == Some(Str(id)) then None else Some(Str(id))
    ensures Prop(r, OptionsKey) == Prop(props, OptionsKey)
    ensures props.Obj? ==> forall k :: k != CorrectKey ==> Prop(r, k) == Prop(props, k)
  {
    With(props, CorrectKey, if Some(Str(id)) == Prop(props, CorrectKey) then None else Some(Str(id)))
  }

  /** The toggle is its own inverse whenever the correct answer is unset or already that option. */
  lemma SetCorrectTwice(props: Value, id: string)
    requires Prop(props, CorrectKey).None? || Prop(props, CorrectKey) == Some(Str(id))
    ensures Prop(SetCorrectOption(SetCorrectOption(props, id), id), CorrectKey) == Prop(props, CorrectKey)
  {
  }

  /** The remove button is enabled only while more than two options remain. */
  predicate CanRemove(options: seq<Value>) {
    |options| > 2
  }

  /** The correct answer, when set, names one of the poll's options. */
  ghost predicate CorrectValid(props: Value)
    requires Shaped(props, OptionsKey)
  {
    var c := Prop(props, CorrectKey);
    c.None? || exists i :: 0 <= i < |Options(props)| && Prop(Options(props)[i], "id") == c
  }

  /** Adding an option keeps the correct answer pointing at an existing option. */
  lemma AddKeepsCorrect(props: Value, freshId: string)
    requires Shaped(props, OptionsKey) && CorrectValid(props)
    ensures CorrectValid(AddOption(props, freshId))
  {
    var c := Prop(props, CorrectKey);
    if c.Some? {
      var os := Options(props);
      var i :| 0 <= i < |os| && Prop(os[i], "id") == c;
      assert Options(AddOption(props, freshId))[i] == os[i];
    }
  }

  /** Removing an option clears the correct answer exactly when its option goes. */
  lemma RemoveKeepsCorrect(props: Value, id: string)
    requires Shaped(props, OptionsKey) && CorrectValid(props)
    ensures CorrectValid(RemoveOption(props, id))
  {
    var c := Prop(props, CorrectKey);
    if c.Some? && c != Some(Str(id)) {
      var r := RemoveOption(props, id);
      assert Options(r) == Without(Options(props), id) && Prop(r, CorrectKey) == c;
      WithoutKeepsOtherId(Options(props), id, c);
    }
  }

  /** An id other than the removed one is still carried by some remaining option. */
  lemma WithoutKeepsOtherId(os: seq<Value>, id: string, c: Option<Value>)
    requires c != Some(Str(id))
    requires exists i :: 0 <= i < |os| && Prop(os[i], "id") == c
    ensures exists j :: 0 <= j < |Without(os, id)| && Prop(Without(os, id)[j], "id") == c
  {
    var i :| 0 <= i < |os| && Prop(os[i], "id") == c;
    var w := Without(os, id);
    assert !HasId(os[i], id);
    assert os[i] in w;
    var j :| 0 <= j < |w| && w[j] == os[i];
  }

  /** Renaming an option keeps every id, so the correct answer still points at an option. */
  lemma UpdateKeepsCorrect(props: Value, id: string, text: string)
    requires Shaped(props, OptionsKey) && CorrectValid(props)
    ensures CorrectValid(UpdateOption(props, id, text))
  {
    var c := Prop(props, CorrectKey);
    if c.Some? {
      var os := Options(props);
      var i :| 0 <= i < |os| && Prop(os[i], "id") == c;
      var r := UpdateOption(props, id, text);
      UpdatedKeepsIds(os, id, "text", Str(text));
      assert Options(r) == Updated(os, id, "text", Str(text));
      assert Prop(r, CorrectKey) == c;
      assert Prop(Options(r)[i], "id") == c;
    }
  }

  /** The toggle, offered next to each listed option, leaves the answer unset or on that option. */
  lemma SetCorrectKeepsCorrect(props: Value, id: string)
    requires Shaped(props, OptionsKey)
    requires exists i :: 0 <= i < |Options(props)| && HasId(Options(props)[i], id)
    ensures CorrectValid(SetCorrectOption(props, id))
  {
    var os := Options(props);
    var i :| 0 <= i < |os| && HasId(os[i], id);
    var t := SetCorrectOption(props, id);
    assert Options(t) == os;
    assert Prop(Options(t)[i], "id") == Some(Str(id));
  }

  /** How an option is shown once the reader has picked one. */
  datatype Mark = Unanswered | Correct | Chosen | Wrong

  /** An option's mark: correct first, then the reader's pick, then wrong. */
  function MarkOf(optionId: Option<Value>, selected: Option<Value>, correct: Option<Value>): Mark {
    if !Present(selected) then Unanswered
    else if optionId == correct then Correct
    else if selected == optionId then Chosen
    else Wrong
  }

  /**
   * Once a listed option with a distinct id is picked, it is the only one that can be marked as
   * chosen, it is marked correct exactly when it is the right answer, and every option is marked.
   */
  lemma AnsweredMarks(options: seq<Value>, s: nat, correct: Option<Value>)
    requires IdsDistinct(options) && s < |options| && Present(Prop(options[s], "id"))
    ensures forall i :: 0 <= i < |options| ==> MarkOf(Prop(options[i], "id"), Prop(options[s], "id"), correct) != Unanswered
    ensures MarkOf(Prop(options[s], "id"), Prop(options[s], "id"), correct)
              == if Prop(options[s], "id") == correct then Correct else Chosen
    ensures forall i :: 0 <= i < |options| && i != s ==> MarkOf(Prop(options[i], "id"), Prop(options[s], "id"), correct) != Chosen
  {
    forall i | 0 <= i < |options| && i != s
      ensures MarkOf(Prop(options[i], "id"), Prop(options[s], "id"), correct) != Chosen
    {
      if i < s {
        assert Prop(options[i], "id") != Prop(options[s], "id");
      } else {
        assert Prop(options[s], "id") != Prop(options[i], "id");
      }
    }
  }

  /** The view-mode state of one poll: the id of the option the reader picked, if any. */
  class PollView {
    var selectedOption: Option<Value>

    /** A freshly mounted poll is unanswered. */
    constructor()
      ensures selectedOption == None && !Answered()
    {
      selectedOption := None;
    }

    /** `if (selectedOption)`. */
    predicate Answered()
      reads this
    {
      Present(selectedOption)
    }

    /** A click on an option button, which exists only while the poll is unanswered. */
    method Choose(option: Value)
      requires !Answered()
      modifies this
      ensures selectedOption == Prop(option, "id")
      ensures Present(Prop(option, "id")) ==> Answered()
    {
      selectedOption := Prop(option, "id");
    }

    /** "Tentar novamente", shown only once answered: the poll returns to the unanswered state. */
    method Retry()
      requires Answered()
      modifies this
      ensures !Answered()
      ensures forall options: seq<Value>, correct, i :: 0 <= i < |options| ==> Marks(options, correct)[i] == Unanswered
    {
      selectedOption := None;
    }

    /** The mark of each option, in list order. */
    function Marks(options: seq<Value>, correct: Option<Value>): (r: seq<Mark>)
      reads this
      ensures |r| == |options|
      ensures forall i :: 0 <= i < |r| ==> (r[i] == Unanswered <==> !Answered())
    {
      var selected := selectedOption;
      seq(|options|, i requires 0 <= i < |options| => MarkOf(Prop(options[i], "id"), selected, correct))
    }

    /** The explanation is shown once answered and only when the poll has one. */
    function ShowsExplanation(props: Value): (r: bool)
      reads this
      ensures r <==> Answered() && Present(Prop(props, "explanation"))
    {
      Answered() && Present(Prop(props, "explanation"))
    }
  }
}
