/** The save and key handling that the two edit dialogs
    (`src/components/UI/EditModal/EditModal.tsx` and
    `src/components/UI/EditModal.tsx`) have in common, word for word. The
    `onSave` promise's settling is a parameter. */
module EditForm {
  import opened Wrappers
  import opened JsText
  import opened Types

  /** The two alerts of `handleSave`. */
  datatype Alert = IncompleteAlert | SaveFailedAlert

  /** What one `handleSave` does: the changes handed to `onSave` (none when
      it is not called) and the alert shown, if any. */
  datatype SaveReport = SaveReport(sent: Option<BookmarkChanges>, alert: Option<Alert>)

  /** The changes a save sends: refused when the trimmed title or the
      trimmed url is empty, otherwise both trimmed. */
  function SavePayload(title: string, url: string): (r: Option<BookmarkChanges>)
    ensures r.None? <==> IsBlank(title) || IsBlank(url)
    ensures r.Some? ==> r.value == BookmarkChanges(Some(Trim(title)), Some(Trim(url)))
  {
    TrimEmptyIffBlank(title);
    TrimEmptyIffBlank(url);
    if Trim(title) == "" || Trim(url) == "" then None
    else Some(BookmarkChanges(Some(Trim(title)), Some(Trim(url))))
  }

  /** `handleSave`: a blank field gives the incomplete-form alert and no
      call; otherwise `onSave` is called, and its rejection is caught and
      turned into an alert. */
  function HandleSave(title: string, url: string, onSave: Outcome): (r: SaveReport)
    ensures r.sent == SavePayload(title, url)
    ensures r.alert == Some(IncompleteAlert) <==> r.sent.None?
    ensures r.alert == Some(SaveFailedAlert) <==> r.sent.Some? && onSave.Fail?
    ensures r.alert.None? <==> r.sent.Some? && onSave.Pass?
  {
    match SavePayload(title, url)
    case None => SaveReport(None, Some(IncompleteAlert))
    case Some(changes) =>
      if onSave.Pass? then SaveReport(Some(changes), None) else SaveReport(Some(changes), Some(SaveFailedAlert))
  }

  /** What a key press in either field leads to. */
  datatype KeyResult = Saving(report: SaveReport) | Cancelling | Ignored

  /** `handleKeyPress`: Enter saves, Escape cancels, any other key is
      ignored. */
  function KeyPress(key: string, title: string, url: string, onSave: Outcome): (r: KeyResult)
    ensures r.Saving? <==> key == "Enter"
    ensures r.Cancelling? <==> key == "Escape"
    ensures r.Saving? ==> r.report == HandleSave(title, url, onSave)
  {
    if key == "Enter" then Saving(HandleSave(title, url, onSave))
    else if key == "Escape" then Cancelling
    else Ignored
  }

  /** The dialog shows only while open with a bookmark. */
  predicate IsRendered(isOpen: bool, bookmark: Option<Bookmark>)
  {
    isOpen && bookmark.Some?
  }

  /** The sent values are non-blank and already trimmed, so sending them
      back through the form sends the same changes again. */
  lemma {:induction false} SavePayloadStable(title: string, url: string)
    requires SavePayload(title, url).Some?
    ensures var c := SavePayload(title, url).value;
      c.title.Some? && c.url.Some? && !IsBlank(c.title.value) && !IsBlank(c.url.value) &&
      SavePayload(c.title.value, c.url.value) == Some(c)
  {
    var t, u := Trim(title), Trim(url);
    TrimIdempotent(title);
    TrimIdempotent(url);
    TrimEmptyIffBlank(t);
    TrimEmptyIffBlank(u);
    TrimEmptyIffBlank(title);
    TrimEmptyIffBlank(url);
  }
}
