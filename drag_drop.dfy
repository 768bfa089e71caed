/** `useDragDrop`: the two state cells of a drag gesture and the handlers
    that overwrite them. The `dataTransfer` writes are returned as data. */
module DragDrop {
  import opened Wrappers
  import opened Types

  /** What a handler writes into the event's `dataTransfer`: its
      `effectAllowed`, its `dropEffect` and its `text/plain` data, each
      `None` when the handler leaves it alone. */
  datatype Transfer = Transfer(effectAllowed: Option<string>, dropEffect: Option<string>, textPlain: Option<string>)

  class DragDropState {
    var draggedItem: Option<Bookmark>
    var dragOverItem: Option<string>

    constructor()
      ensures draggedItem == None && dragOverItem == None
    {
      draggedItem := None;
      dragOverItem := None;
    }

    /** Remember the dragged bookmark and put its id on the transfer. */
    method HandleDragStart(bookmark: Bookmark) returns (transfer: Transfer)
      modifies this
      ensures draggedItem == Some(bookmark) && dragOverItem == old(dragOverItem)
      ensures transfer == Transfer(Some("move"), None, Some(bookmark.id))
    {
      draggedItem := Some(bookmark);
      transfer := Transfer(Some("move"), None, Some(bookmark.id));
    }

    method HandleDragOver(bookmarkId: string) returns (transfer: Transfer)
      modifies this
      ensures dragOverItem == Some(bookmarkId) && draggedItem == old(draggedItem)
      ensures transfer == Transfer(None, Some("move"), None)
    {
      dragOverItem := Some(bookmarkId);
      transfer := Transfer(None, Some("move"), None);
    }

    method HandleDragLeave()
      modifies this
      ensures dragOverItem == None && draggedItem == old(draggedItem)
    {
      dragOverItem := None;
    }

    /** A drop with nothing dragged, or onto the dragged item itself, skips
        the move branch (`moved` is false); either way both cells end
        cleared. The move branch of the source only logs. */
    method HandleDrop(targetBookmarkId: string) returns (moved: bool)
      modifies this
      ensures moved <==> old(draggedItem).Some? && old(draggedItem).value.id != targetBookmarkId
      ensures draggedItem == None && dragOverItem == None
    {
      if draggedItem.None? || draggedItem.value.id == targetBookmarkId {
        dragOverItem := None;
        draggedItem := None;
        return false;
      }
      moved := true;
      dragOverItem := None;
      draggedItem := None;
    }

    method HandleDragEnd()
      modifies this
      ensures draggedItem == None && dragOverItem == None
    {
      draggedItem := None;
      dragOverItem := None;
    }
  }
}
