/** `src/components/UI/EditModal.tsx`: the older edit dialog, whose
    field-reset effect depends on `bookmark` alone. Otherwise it behaves
    as the dialog of `src/components/UI/EditModal/EditModal.tsx`. */
module EditModalLegacy {
  import opened Wrappers
  import opened Types
  import opened EditForm

  datatype FormState = FormState(title: string, url: string, bookmark: Option<Bookmark>)

  /** The form after a render: the effect runs only when the bookmark
      changed, and then copies a present bookmark into the fields. Opening
      and closing alone never resets them. */
  function Rendered(st: FormState, bookmark: Option<Bookmark>): (r: FormState)
    ensures r.bookmark == bookmark
    ensures bookmark != st.bookmark && bookmark.Some? ==>
      r.title == bookmark.value.title && r.url == bookmark.value.url
    ensures !(bookmark != st.bookmark && bookmark.Some?) ==> r.title == st.title && r.url == st.url
  {
    if bookmark != st.bookmark && bookmark.Some? then FormState(bookmark.value.title, bookmark.value.url, bookmark)
    else st.(bookmark := bookmark)
  }

  function Mounted(bookmark: Option<Bookmark>): (r: FormState)
    ensures bookmark.Some? ==> r.title == bookmark.value.title && r.url == bookmark.value.url
    ensures bookmark.None? ==> r.title == "" && r.url == ""
  {
    if bookmark.Some? then FormState(bookmark.value.title, bookmark.value.url, bookmark)
    else FormState("", "", bookmark)
  }

  class EditModal {
    var title: string
    var url: string
    var bookmark: Option<Bookmark>
    /** The `isOpen` prop of the last render; only the rendering reads it. */
    var isOpen: bool

    function State(): FormState
      reads this
    {
      FormState(title, url, bookmark)
    }

    constructor(isOpen: bool, bookmark: Option<Bookmark>)
      ensures State() == Mounted(bookmark) && this.isOpen == isOpen
    {
      title := "";
      url := "";
      this.bookmark := bookmark;
      this.isOpen := isOpen;
      if bookmark.Some? {
        title := bookmark.value.title;
        url := bookmark.value.url;
      }
    }

    method Render(isOpen: bool, bookmark: Option<Bookmark>)
      modifies this
      ensures State() == Rendered(old(State()), bookmark) && this.isOpen == isOpen
    {
      var runs := bookmark != this.bookmark;
      this.bookmark := bookmark;
      this.isOpen := isOpen;
      if runs && bookmark.Some? {
        title := bookmark.value.title;
        url := bookmark.value.url;
      }
    }

    method SetTitle(t: string)
      modifies this
      ensures State() == old(State()).(title := t) && isOpen == old(isOpen)
    {
      title := t;
    }

    method SetUrl(u: string)
      modifies this
      ensures State() == old(State()).(url := u) && isOpen == old(isOpen)
    {
      url := u;
    }

    method HandleSave(onSave: Outcome) returns (r: SaveReport)
      ensures r == EditForm.HandleSave(title, url, onSave)
    {
      r := EditForm.HandleSave(title, url, onSave);
    }

    method HandleKeyPress(key: string, onSave: Outcome) returns (r: KeyResult)
      ensures r == KeyPress(key, title, url, onSave)
    {
      if key == "Enter" {
        var report := HandleSave(onSave);
        r := Saving(report);
      } else if key == "Escape" {
        r := Cancelling;
      } else {
        r := Ignored;
      }
    }
  }

  /** Unlike the newer dialog, closing and reopening on the same bookmark
      keeps whatever was typed before: the fields are not reset. */
  lemma ReopenKeepsEdits(st: FormState, b: Bookmark)
    requires st.bookmark == Some(b)
    ensures var r := Rendered(Rendered(st, Some(b)), Some(b));
      r.title == st.title && r.url == st.url
  {
  }
}
