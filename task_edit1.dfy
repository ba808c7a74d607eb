/**
 * The task edit screen's view model of the AVerSiNoTruena iteration: it
 * loads the stored task into the form, validates edits (a due date is
 * required) and writes the edited task back.
 */
module TaskEdit1 {
  import opened Common
  import opened Tables
  import Entry = TaskEntry1

  /** `validateInput`: a title and a description that are not blank and a
      due date. Its `estado != null` test on a non-null `Boolean` always
      holds, so it adds nothing. */
  predicate ValidateInput(d: Entry.TaskDetails) {
    IsNotBlank(d.titulo) && IsNotBlank(d.descripcion) && d.fechaHoraVencimiento.Some?
  }

  /** The edit form's check is the entry form's plus the due date: what is
      valid to edit is valid to enter, and the converse fails exactly when
      the due date is missing; the completion flag never matters. */
  lemma EditValidIsEntryValidWithDueDate(d: Entry.TaskDetails)
    ensures ValidateInput(d) <==> Entry.ValidateInput(d) && d.fechaHoraVencimiento.Some?
    ensures Entry.ValidateInput(d) && d.fechaHoraVencimiento.None? ==> !ValidateInput(d)
    ensures ValidateInput(d) <==> ValidateInput(d.(estado := !d.estado))
  {
  }

  /** A stored task shown in the form is always valid to edit when its title
      and description are not blank: the form gets a due date from it. */
  lemma LoadedFormHasDueDate(t: Entry.Task)
    ensures ValidateInput(Entry.ToTaskDetails(t)) <==> Entry.ValidateInput(Entry.ToTaskDetails(t))
  {
  }

  class TaskEditViewModel {
    var taskUiState: Entry.TaskUiState
    /** The `taskIdArg` navigation argument. */
    const taskId: int
    const tasksRepository: Repository<Entry.TaskColumns>

    ghost predicate Valid()
      reads this, tasksRepository
    {
      tasksRepository.Valid()
    }

    /** Construction and the `init` load: the stored task fills the form,
        flagged valid without being validated. While no task is stored under
        `taskId`, the form keeps its default. */
    constructor (taskId: int, tasksRepository: Repository<Entry.TaskColumns>)
      ensures this.taskId == taskId && this.tasksRepository == tasksRepository
      ensures taskUiState == match tasksRepository.Get(taskId)
                             case None => Entry.DefaultTaskUiState
                             case Some(cols) => Entry.ToTaskUiState(Entry.TaskOf(Row(taskId, cols)), true)
    {
      this.taskId := taskId;
      this.tasksRepository := tasksRepository;
      var stored := tasksRepository.Get(taskId);
      match stored
      case None => taskUiState := Entry.DefaultTaskUiState;
      case Some(cols) => taskUiState := Entry.ToTaskUiState(Entry.TaskOf(Row(taskId, cols)), true);
    }

    /** `updateUiState(taskDetails)`: the details are kept as given and the
        flag is their validity for editing. */
    method UpdateUiState(taskDetails: Entry.TaskDetails)
      modifies this
      ensures taskUiState == Entry.TaskUiState(taskDetails, ValidateInput(taskDetails))
    {
      taskUiState := Entry.TaskUiState(taskDetails, ValidateInput(taskDetails));
    }

    /** `updateTask()`: on a valid form, write the task it describes over the
        row with its id; on an invalid one, nothing. */
    method UpdateTask()
      requires Valid()
      modifies tasksRepository
      ensures Valid()
      ensures tasksRepository.table == if ValidateInput(taskUiState.taskDetails)
        then UpdateRow(old(tasksRepository.table), taskUiState.taskDetails.id,
                       Entry.TaskColumnsOf(Entry.ToTask(taskUiState.taskDetails)))
        else old(tasksRepository.table)
    {
      if ValidateInput(taskUiState.taskDetails) {
        var task := Entry.ToTask(taskUiState.taskDetails);
        tasksRepository.Update(task.id, Entry.TaskColumnsOf(task));
      }
    }
  }

  /** The `init` load flags the form valid whatever it holds: a stored task
      with a blank title is shown as valid, though `updateUiState` on the same
      details would flag it invalid. */
  lemma LoadSkipsValidation(t: Entry.Task)
    requires IsBlank(t.titulo)
    ensures Entry.ToTaskUiState(t, true).isEntryValid
    ensures !ValidateInput(Entry.ToTaskUiState(t, true).taskDetails)
  {
  }

  /** Loading a stored task and saving it without edits writes the same row
      back with its four extra columns cleared: the row is unchanged exactly
      when they were already `null`, and every other row stays. */
  lemma UnchangedEditClearsExtras(table: Table<Entry.TaskColumns>, id: int, k: int)
    requires WellFormed(table) && HasKey(table.rows, id)
    ensures var stored := Entry.TaskOf(Row(id, Lookup(table.rows, id).value));
      var next := UpdateRow(table, id, Entry.TaskColumnsOf(Entry.ToTask(Entry.ToTaskDetails(stored))));
      && Lookup(next.rows, id) == Some(Entry.TaskColumnsOf(stored.(horaCumplimiento := None,
           videoUri := None, fotoUri := None, audioUri := None)))
      && (Lookup(next.rows, id) == Lookup(table.rows, id) <==> Entry.NoExtras(stored))
      && (k != id ==> Lookup(next.rows, k) == Lookup(table.rows, k))
  {
    var stored := Entry.TaskOf(Row(id, Lookup(table.rows, id).value));
    UpdateRowSpec(table, id, Entry.TaskColumnsOf(Entry.ToTask(Entry.ToTaskDetails(stored))));
    Entry.TaskRowRoundTrip(stored, Row(id, Lookup(table.rows, id).value));
  }
}
