/** The UI store: the edit dialog, the bookmark manager and the manager's
    selection. */
module UiStore {
  import opened Wrappers
  import opened Types

  class UiState {
    var isEditModalOpen: bool
    var editingBookmark: Option<Bookmark>
    var isBookmarkManagerOpen: bool
    var selectedBookmarkIds: seq<string>

    /** The dialog is open exactly when a bookmark is being edited. */
    predicate Valid()
      reads this
    {
      isEditModalOpen <==> editingBookmark.Some?
    }

    constructor()
      ensures Valid()
      ensures !isEditModalOpen && editingBookmark == None
      ensures !isBookmarkManagerOpen && selectedBookmarkIds == []
    {
      isEditModalOpen := false;
      editingBookmark := None;
      isBookmarkManagerOpen := false;
      selectedBookmarkIds := [];
    }

    method OpenEditModal(bookmark: Bookmark)
      modifies this
      ensures Valid()
      ensures isEditModalOpen && editingBookmark == Some(bookmark)
      ensures isBookmarkManagerOpen == old(isBookmarkManagerOpen) && selectedBookmarkIds == old(selectedBookmarkIds)
    {
      isEditModalOpen, editingBookmark := true, Some(bookmark);
    }

    method CloseEditModal()
      modifies this
      ensures Valid()
      ensures !isEditModalOpen && editingBookmark == None
      ensures isBookmarkManagerOpen == old(isBookmarkManagerOpen) && selectedBookmarkIds == old(selectedBookmarkIds)
    {
      isEditModalOpen, editingBookmark := false, None;
    }

    /** Opening the manager keeps whatever selection there was. */
    method OpenBookmarkManager()
      requires Valid()
      modifies this
      ensures Valid()
      ensures isBookmarkManagerOpen && selectedBookmarkIds == old(selectedBookmarkIds)
      ensures isEditModalOpen == old(isEditModalOpen) && editingBookmark == old(editingBookmark)
    {
      isBookmarkManagerOpen := true;
    }

    /** Closing the manager also drops the selection. */
    method CloseBookmarkManager()
      requires Valid()
      modifies this
      ensures Valid()
      ensures !isBookmarkManagerOpen && selectedBookmarkIds == []
      ensures isEditModalOpen == old(isEditModalOpen) && editingBookmark == old(editingBookmark)
    {
      isBookmarkManagerOpen, selectedBookmarkIds := false, [];
    }

    /** The selection is replaced as given, duplicates and all. */
    method SetSelectedBookmarkIds(selectedIds: seq<string>)
      requires Valid()
      modifies this
      ensures Valid()
      ensures selectedBookmarkIds == selectedIds
      ensures isEditModalOpen == old(isEditModalOpen) && editingBookmark == old(editingBookmark)
      ensures isBookmarkManagerOpen == old(isBookmarkManagerOpen)
    {
      selectedBookmarkIds := selectedIds;
    }
  }
}
