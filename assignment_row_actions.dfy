/**
 * The per-row menu of the admin assignment table: a Publish or Unpublish item, Edit, and a
 * Delete item that only opens a confirmation dialog; the dialog's Continue button deletes.
 */
module AssignmentRowActions {
  import opened Wrappers
  import opened Lists
  import opened AssignmentSchema
  import opened AssignmentData
  import opened AssignmentActions

  datatype MenuItem = StatusItem(text: string, target: Status) | EditItem | DeleteItem

  /** The status entries of the menu: Publish for a Draft row, Unpublish for a Published row. */
  function StatusItems(current: Status): (items: seq<MenuItem>)
    ensures |items| == 1 && items[0].StatusItem?
    ensures items[0].text == "Publish" <==> current == Draft
    ensures items[0].text == "Unpublish" <==> current == Published
    ensures items[0].target != current
  {
    (if current == Draft then [StatusItem("Publish", Published)] else [])
    + (if current == Published then [StatusItem("Unpublish", Draft)] else [])
  }

  /** The dropdown: the one status item, then Edit, then Delete. */
  function MenuItems(current: Status): (items: seq<MenuItem>)
    ensures |items| == 3 && items[1] == EditItem && items[2] == DeleteItem
    ensures items[0].StatusItem? && items[0].target == Toggled(current)
  {
    StatusItems(current) + [EditItem, DeleteItem]
  }

  /** The menu only toggles: each status item offered moves the row to the other status. */
  lemma {:induction false} MenuOnlyToggles(current: Status, i: nat)
    requires i < |MenuItems(current)| && MenuItems(current)[i].StatusItem?
    ensures i == 0 && MenuItems(current)[i].target == Toggled(current)
  {
    assert MenuItems(current)[1] == EditItem && MenuItems(current)[2] == DeleteItem;
  }

  datatype Toast = Toast(title: string, description: string, destructive: bool)

  /** The component's state for one row: its dialog flags, the toasts shown and the refreshes asked for. */
  class RowActions {
    const assignment: Assignment
    var editDialogOpen: bool
    var deleteDialogOpen: bool
    var toasts: seq<Toast>
    var refreshes: nat

    constructor (assignment: Assignment)
      ensures this.assignment == assignment
      ensures !editDialogOpen && !deleteDialogOpen && toasts == [] && refreshes == 0
    {
      this.assignment := assignment;
      editDialogOpen, deleteDialogOpen := false, false;
      toasts, refreshes := [], 0;
    }

    /** Whether the table holds this row's assignment. */
    predicate Found(rows: seq<Assignment>) {
      FirstIndex(rows, HasId(assignment.id)) >= 0
    }

    /** `handleStatusChange`: call the action, toast its message, refresh on success. */
    method HandleStatusChange(table: AssignmentTable, status: Status)
      requires table.Valid()
      modifies this, table
      ensures table.Valid()
      ensures Found(old(table.rows)) ==> && table.rows == AfterSetStatus(old(table.rows), assignment.id, status).value
                                         && toasts == old(toasts) + [Toast("Success", StatusMessage(status), false)]
                                         && refreshes == old(refreshes) + 1
      ensures !Found(old(table.rows)) ==> && table.rows == old(table.rows)
                                          && toasts == old(toasts) + [Toast("Error", StatusFailedMessage, true)]
                                          && refreshes == old(refreshes)
      ensures editDialogOpen == old(editDialogOpen) && deleteDialogOpen == old(deleteDialogOpen)
    {
      var result := UpdateAssignmentStatus(table, assignment.id, status);
      if result.success {
        toasts := toasts + [Toast("Success", result.message, false)];
        refreshes := refreshes + 1;
      } else {
        toasts := toasts + [Toast("Error", result.message, true)];
      }
    }

    /**
     * `handleDelete`: toast the action's message; on success also close the dialog and refresh.
     * The body itself leaves the dialog flag alone on failure.
     */
    method HandleDelete(table: AssignmentTable)
      requires table.Valid()
      modifies this, table
      ensures table.Valid()
      ensures Found(old(table.rows)) ==> && table.rows == AfterDelete(old(table.rows), assignment.id).value
                                         && !deleteDialogOpen
                                         && toasts == old(toasts) + [Toast("Success", DeletedMessage, false)]
                                         && refreshes == old(refreshes) + 1
      ensures !Found(old(table.rows)) ==> && table.rows == old(table.rows)
                                          && deleteDialogOpen == old(deleteDialogOpen)
                                          && toasts == old(toasts) + [Toast("Error", DeleteFailedMessage, true)]
                                          && refreshes == old(refreshes)
      ensures editDialogOpen == old(editDialogOpen)
    {
      var result := DeleteAssignment(table, assignment.id);
      if result.success {
        toasts := toasts + [Toast("Success", result.message, false)];
        deleteDialogOpen := false;
        refreshes := refreshes + 1;
      } else {
        toasts := toasts + [Toast("Error", result.message, true)];
      }
    }

    /**
     * The dialog's Continue button. It is an alert-dialog action inside a dialog whose
     * `onOpenChange` is the flag's setter, so the click runs `handleDelete` and the dialog library
     * then closes the dialog whatever the outcome.
     */
    method ConfirmDelete(table: AssignmentTable)
      requires table.Valid()
      modifies this, table
      ensures table.Valid()
      ensures Found(old(table.rows)) ==> && table.rows == AfterDelete(old(table.rows), assignment.id).value
                                         && toasts == old(toasts) + [Toast("Success", DeletedMessage, false)]
                                         && refreshes == old(refreshes) + 1
      ensures !Found(old(table.rows)) ==> && table.rows == old(table.rows)
                                          && toasts == old(toasts) + [Toast("Error", DeleteFailedMessage, true)]
                                          && refreshes == old(refreshes)
      ensures !deleteDialogOpen && editDialogOpen == old(editDialogOpen)
    {
      HandleDelete(table);
      deleteDialogOpen := false;
    }

    /**
     * Choosing a menu entry. A status entry runs `handleStatusChange` with its target; Edit opens
     * the edit dialog; Delete only opens the confirmation dialog and leaves the table alone.
     */
    method Choose(table: AssignmentTable, item: MenuItem)
      requires table.Valid()
      requires item in MenuItems(assignment.status)
      modifies this, table
      ensures table.Valid()
      ensures item.DeleteItem? ==> && table.rows == old(table.rows) && deleteDialogOpen
                                   && toasts == old(toasts) && refreshes == old(refreshes)
                                   && editDialogOpen == old(editDialogOpen)
      ensures item.EditItem? ==> && table.rows == old(table.rows) && editDialogOpen
                                 && toasts == old(toasts) && refreshes == old(refreshes)
                                 && deleteDialogOpen == old(deleteDialogOpen)
      ensures item.StatusItem? ==> item.target == Toggled(assignment.status)
      ensures item.StatusItem? && Found(old(table.rows)) ==>
                && table.rows == AfterSetStatus(old(table.rows), assignment.id, item.target).value
                && toasts == old(toasts) + [Toast("Success", StatusMessage(item.target), false)]
                && refreshes == old(refreshes) + 1
      ensures item.StatusItem? && !Found(old(table.rows)) ==>
                && table.rows == old(table.rows)
                && toasts == old(toasts) + [Toast("Error", StatusFailedMessage, true)]
                && refreshes == old(refreshes)
      ensures item.StatusItem? ==>
                editDialogOpen == old(editDialogOpen) && deleteDialogOpen == old(deleteDialogOpen)
    {
      match item
      case StatusItem(_, target) =>
        HandleStatusChange(table, target);
      case EditItem =>
        editDialogOpen := true;
      case DeleteItem =>
        deleteDialogOpen := true;
    }
  }
}
