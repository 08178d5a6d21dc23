/**
 * The admin dashboard's post chooser: a dialog in which a post is selected, and, for deletion, a
 * confirmation dialog. "Prosseguir" stays disabled until a post is selected; confirming either
 * navigates to the post's edit page or hands over to the delete confirmation, depending on the
 * chooser's trigger text.
 */
module AdminClient {
  import opened Base
  import opened Json
  import opened Text

  /** A post as the chooser lists it: its id (a string or a number) and its title. */
  datatype ChoosablePost = ChoosablePost(id: Value, title: string)

  /** `String(p.id) === val`: the post's id reads as `val`. */
  predicate IdReads(p: ChoosablePost, val: string) {
    ToJsString(p.id) == val
  }

  /**
   * `posts.find((p) => String(p.id) === val)?.title || ""`: the title of the first post whose
   * id reads as `val`, or "" when there is none.
   */
  function SelectedTitle(posts: seq<ChoosablePost>, val: string): (r: string)
    ensures (forall i :: 0 <= i < |posts| ==> !IdReads(posts[i], val)) ==> r == ""
    ensures forall i :: (0 <= i < |posts| && IdReads(posts[i], val) &&
                         forall j :: 0 <= j < i ==> !IdReads(posts[j], val)) ==> r == posts[i].title
  {
    if posts == [] then ""
    else if IdReads(posts[0], val) then posts[0].title
    else
      var r := SelectedTitle(posts[1..], val);
      assert forall i :: 0 < i < |posts| ==> posts[1..][i - 1] == posts[i];
      r
  }

  /** The choice `handleConfirm` makes as written: edit only when the lower-cased trigger text is "editar". */
  predicate OpensEditor(triggerText: string) {
    Lower(triggerText) == "editar"
  }

  /** The trigger texts the dashboard passes to its two choosers. */
  const EditCard: string := "Selecionar para Editar"
  const DeleteCard: string := "Selecionar para Deletar"

  /** As written, both dashboard cards lead to the delete confirmation: neither text is "editar". */
  lemma EditCardOpensDeleteConfirmation(triggerText: string)
    requires triggerText == EditCard || triggerText == DeleteCard
    ensures !OpensEditor(triggerText)
    ensures OpensEditor("Editar")
  {
    assert |Lower(triggerText)| != |"editar"|;
    assert Lower("Editar") == "editar";
  }

  /** The choice the dashboard evidently intends: the trigger text ends in "editar", case aside. */
  predicate IntendsEditor(triggerText: string) {
    EndsWith(Lower(triggerText), "editar")
  }

  /**
   * The intended choice tells the two cards apart (the edit card edits, the delete card deletes)
   * and agrees with the written one wherever that one already edits.
   */
  lemma IntendedChoiceSeparatesCards(triggerText: string)
    ensures IntendsEditor(EditCard) && !IntendsEditor(DeleteCard)
    ensures OpensEditor(triggerText) ==> IntendsEditor(triggerText)
  {
    var e := Lower(EditCard);
    assert e[16..] == "editar" by {
      assert forall i :: 16 <= i < 22 ==> e[i] == LowerChar(EditCard[i]);
    }
    var d := Lower(DeleteCard);
    assert d[18] == LowerChar(DeleteCard[18]) == 'l';
  }

  /** Where a confirmation leads. */
  datatype Navigation = Stay | PushTo(path: string)

  /** A toast: whether it reports success, its heading and its description. */
  datatype Notice = Notice(success: bool, heading: string, description: string)

  /** One chooser on the dashboard: the two dialogs' open state and the selection. */
  class Chooser {
    const posts: seq<ChoosablePost>
    const triggerText: string
    var selectionOpen: bool
    var open: bool
    var value: string
    var title: string
    var disabled: bool

    /** The chooser's invariant, kept by every handler: "Prosseguir" is disabled only while nothing is selected. */
    predicate Valid()
      reads this
    {
      disabled ==> value == "" && title == ""
    }

    constructor(posts: seq<ChoosablePost>, triggerText: string)
      ensures this.posts == posts && this.triggerText == triggerText
      ensures !selectionOpen && !open && value == "" && title == "" && disabled
      ensures Valid()
    {
      this.posts := posts;
      this.triggerText := triggerText;
      selectionOpen := false;
      open := false;
      value := "";
      title := "";
      disabled := true;
    }

    /** The trigger button and the dialog's own close control: `onOpenChange`. */
    method SetSelectionOpen(b: bool)
      requires Valid()
      modifies this
      ensures Valid()
      ensures selectionOpen == b
      ensures open == old(open) && value == old(value) && title == old(title) && disabled == old(disabled)
    {
      selectionOpen := b;
    }

    /** Selecting a post enables "Prosseguir" and stores the post's id and title. */
    method HandleSelect(val: string)
      requires Valid()
      modifies this
      ensures !disabled && value == val && title == SelectedTitle(posts, val)
      ensures selectionOpen == old(selectionOpen) && open == old(open)
      ensures Valid()
    {
      disabled := false;
      value := val;
      var i := 0;
      while i < |posts| && !IdReads(posts[i], val)
        invariant 0 <= i <= |posts|
        invariant SelectedTitle(posts, val) == SelectedTitle(posts[i..], val)
      {
        assert posts[i..][1..] == posts[i + 1..];
        i := i + 1;
      }
      title := if i < |posts| then posts[i].title else "";
    }

    /**
     * "Prosseguir", which can be pressed only once a post is selected: with the edit trigger text
     * it navigates to the post's edit page, otherwise it closes the chooser and opens the delete
     * confirmation.
     */
    method HandleConfirm() returns (nav: Navigation)
      requires Valid() && !disabled
      modifies this
      ensures Valid()
      ensures OpensEditor(triggerText) ==> nav == PushTo("/admin/edit/" + value) && open == old(open)
      ensures !OpensEditor(triggerText) ==> nav == Stay && open
      ensures !selectionOpen
      ensures value == old(value) && title == old(title) && disabled == old(disabled)
    {
      var action := Lower(triggerText) == "editar";
      if action {
        nav := PushTo("/admin/edit/" + value);
        selectionOpen := false;
      } else {
        nav := Stay;
        selectionOpen := false;
        open := true;
      }
    }

    /** "Cancelar" in the delete confirmation. */
    method CancelDelete()
      requires Valid()
      modifies this
      ensures Valid()
      ensures !open
      ensures selectionOpen == old(selectionOpen) && value == old(value) && title == old(title) && disabled == old(disabled)
    {
      open := false;
    }

    /**
     * "Confirmar": the delete of `value` has answered `deleted`. The confirmation closes either
     * way; a success is reported and refreshes the page, a failure is reported as an error.
     */
    method ConfirmDelete(deleted: bool) returns (notice: Notice, refresh: bool)
      requires Valid()
      modifies this
      ensures Valid()
      ensures !open
      ensures notice.success == deleted && refresh == deleted
      ensures deleted ==> notice == Notice(true, "Confirmação", "O post foi deletado com sucesso.")
      ensures !deleted ==> notice == Notice(false, "Erro", "Ocorreu um erro ao deletar o post.")
      ensures selectionOpen == old(selectionOpen) && value == old(value) && title == old(title) && disabled == old(disabled)
    {
      open := false;
      if deleted {
        notice := Notice(true, "Confirmação", "O post foi deletado com sucesso.");
        refresh := true;
      } else {
        notice := Notice(false, "Erro", "Ocorreu um erro ao deletar o post.");
        refresh := false;
      }
    }
  }

  /**
   * On the dashboard as written, selecting a post in the edit card and pressing "Prosseguir"
   * opens the delete confirmation for that post instead of the editor.
   */
  method EditCardSession(posts: seq<ChoosablePost>, val: string) returns (nav: Navigation, c: Chooser)
    ensures nav == Stay && c.open && c.value == val && c.title == SelectedTitle(posts, val)
  {
    c := new Chooser(posts, EditCard);
    c.SetSelectionOpen(true);
    c.HandleSelect(val);
    EditCardOpensDeleteConfirmation(EditCard);
    nav := c.HandleConfirm();
  }
}
