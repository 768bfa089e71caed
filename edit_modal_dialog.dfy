/** `src/components/UI/EditModal/EditModal.tsx`: the edit dialog whose
    field-reset effect depends on both `isOpen` and `bookmark`. The class
    holds the two field cells and the props of the last render, which the
    effect's dependency check compares against. */
module EditModalDialog {
  import opened Wrappers
  import opened Types
  import opened EditForm

  datatype FormState = FormState(title: string, url: string, isOpen: bool, bookmark: Option<Bookmark>)

  /** The form after a render with new props: the effect runs when either
      dependency changed, and then copies a present bookmark's title and
      url into the fields. */
  function Rendered(st: FormState, isOpen: bool, bookmark: Option<Bookmark>): (r: FormState)
    ensures r.isOpen == isOpen && r.bookmark == bookmark
    ensures (isOpen != st.isOpen || bookmark != st.bookmark) && bookmark.Some? ==>
      r.title == bookmark.value.title && r.url == bookmark.value.url
    ensures !((isOpen != st.isOpen || bookmark != st.bookmark) && bookmark.Some?) ==>
      r.title == st.title && r.url == st.url
  {
    var runs := isOpen != st.isOpen || bookmark != st.bookmark;
    if runs && bookmark.Some? then FormState(bookmark.value.title, bookmark.value.url, isOpen, bookmark)
    else st.(isOpen := isOpen, bookmark := bookmark)
  }

  /** The form on mount: the effect always runs once. */
  function Mounted(isOpen: bool, bookmark: Option<Bookmark>): (r: FormState)
    ensures bookmark.Some? ==> r.title == bookmark.value.title && r.url == bookmark.value.url
    ensures bookmark.None? ==> r.title == "" && r.url == ""
  {
    if bookmark.Some? then FormState(bookmark.value.title, bookmark.value.url, isOpen, bookmark)
    else FormState("", "", isOpen, bookmark)
  }

  class EditModal {
    var title: string
    var url: string
    var isOpen: bool
    var bookmark: Option<Bookmark>

    function State(): FormState
      reads this
    {
      FormState(title, url, isOpen, bookmark)
    }

    constructor(isOpen: bool, bookmark: Option<Bookmark>)
      ensures State() == Mounted(isOpen, bookmark)
    {
      title := "";
      url := "";
      this.isOpen := isOpen;
      this.bookmark := bookmark;
      if bookmark.Some? {
        title := bookmark.value.title;
        url := bookmark.value.url;
      }
    }

    method Render(isOpen: bool, bookmark: Option<Bookmark>)
      modifies this
      ensures State() == Rendered(old(State()), isOpen, bookmark)
    {
      var runs := isOpen != this.isOpen || bookmark != this.bookmark;
      this.isOpen := isOpen;
      this.bookmark := bookmark;
      if runs && bookmark.Some? {
        title := bookmark.value.title;
        url := bookmark.value.url;
      }
    }

    method SetTitle(t: string)
      modifies this
      ensures State() == old(State()).(title := t)
    {
      title := t;
    }

    method SetUrl(u: string)
      modifies this
      ensures State() == old(State()).(url := u)
    {
      url := u;
    }

    method HandleSave(onSave: Outcome) returns (r: SaveReport)
      ensures r == EditForm.HandleSave(title, url, onSave)
    {
      r := EditForm.HandleSave(title, url, onSave);
    }

    method HandleKeyPress(key: string, onSave: Outcome) returns (r: KeyResult)
      ensures r == KeyPress(key, title, url, onSave)
    {
      if key == "Enter" {
        var report := HandleSave(onSave);
        r := Saving(report);
      } else if key == "Escape" {
        r := Cancelling;
      } else {
        r := Ignored;
      }
    }
  }

  /** Closing and reopening the dialog on the same bookmark discards edits
      that were never saved: the fields show the bookmark again. */
  lemma ReopenResets(st: FormState, b: Bookmark)
    requires st.bookmark == Some(b) && st.isOpen
    ensures var r := Rendered(Rendered(st, false, Some(b)), true, Some(b));
      r.title == b.title && r.url == b.url && IsRendered(r.isOpen, r.bookmark)
  {
  }
}
