/**
 * The task entry screen's view model of the AVerSiNoTruena iteration: the
 * form, its validation, its conversions, and `saveTask`, which only stores
 * the task.
 *
 * This iteration's task has four more columns than its form: the
 * completion time and three media URIs, all `null` by default. Its
 * repository only delegates to the DAO, so it is the tasks table itself,
 * with Room's insert-or-ignore.
 */
module TaskEntry1 {
  import opened Common
  import opened Tables

  datatype Task = Task(
    id: int,
    titulo: string,
    descripcion: string,
    fechaHoraVencimiento: string,
    estado: bool,
    horaCumplimiento: Option<Long>,
    videoUri: Option<string>,
    fotoUri: Option<string>,
    audioUri: Option<string>)

  /** A task's non-key columns. */
  datatype TaskColumns = TaskColumns(
    titulo: string,
    descripcion: string,
    fechaHoraVencimiento: string,
    estado: bool,
    horaCumplimiento: Option<Long>,
    videoUri: Option<string>,
    fotoUri: Option<string>,
    audioUri: Option<string>)

  function TaskColumnsOf(t: Task): TaskColumns {
    TaskColumns(t.titulo, t.descripcion, t.fechaHoraVencimiento, t.estado,
                t.horaCumplimiento, t.videoUri, t.fotoUri, t.audioUri)
  }

  function TaskOf(row: Row<TaskColumns>): Task {
    var c := row.cols;
    Task(row.key, c.titulo, c.descripcion, c.fechaHoraVencimiento, c.estado,
         c.horaCumplimiento, c.videoUri, c.fotoUri, c.audioUri)
  }

  /** The four columns the form does not carry are all `null`. */
  predicate NoExtras(t: Task) {
    t.horaCumplimiento.None? && t.videoUri.None? && t.fotoUri.None? && t.audioUri.None?
  }

  /** The form's fields. */
  datatype TaskDetails = TaskDetails(
    id: int,
    titulo: string,
    descripcion: string,
    fechaHoraVencimiento: Option<string>,
    estado: bool)

  /** `TaskDetails()`. */
  const DefaultTaskDetails: TaskDetails := TaskDetails(0, "", "", None, false)

  datatype TaskUiState = TaskUiState(taskDetails: TaskDetails, isEntryValid: bool)

  /** `TaskUiState()`. */
  const DefaultTaskUiState: TaskUiState := TaskUiState(DefaultTaskDetails, false)

  /** `validateInput`: a title and a description that are not blank. */
  predicate ValidateInput(d: TaskDetails) {
    IsNotBlank(d.titulo) && IsNotBlank(d.descripcion)
  }

  /** The form is valid exactly when neither the title nor the description
      is empty once leading whitespace is trimmed, whatever the other fields
      hold; so the default form is not valid. */
  lemma ValidateInputSpec(d: TaskDetails)
    ensures ValidateInput(d) <==> TrimStart(d.titulo) != [] && TrimStart(d.descripcion) != []
    ensures ValidateInput(d) <==> ValidateInput(d.(id := 0, fechaHoraVencimiento := None, estado := false))
    ensures !ValidateInput(DefaultTaskDetails)
  {
    BlankIffTrimsToEmpty(d.titulo);
    BlankIffTrimsToEmpty(d.descripcion);
  }

  /** `TaskDetails.toTask()`: the five shared fields are copied (a missing due
      date becomes `""`); the other four keep their `null` defaults. */
  function ToTask(d: TaskDetails): (t: Task)
    ensures NoExtras(t)
  {
    Task(d.id, d.titulo, d.descripcion,
         match d.fechaHoraVencimiento case None => "" case Some(s) => s,
         d.estado, None, None, None, None)
  }

  /** `Task.toTaskDetails()`. */
  function ToTaskDetails(t: Task): TaskDetails {
    TaskDetails(t.id, t.titulo, t.descripcion, Some(t.fechaHoraVencimiento), t.estado)
  }

  /** `Task.toTaskUiState(isEntryValid = false)`. */
  function ToTaskUiState(t: Task, isEntryValid: bool): TaskUiState {
    TaskUiState(ToTaskDetails(t), isEntryValid)
  }

  /** A form survives the trip through a task exactly when it has a due date
      (a missing one comes back as `""`); a task survives the trip through
      the form exactly when its four extra columns are `null`, and otherwise
      comes back with them cleared. */
  lemma TaskRoundTrips(t: Task, d: TaskDetails)
    ensures ToTaskDetails(ToTask(d)) == d <==> d.fechaHoraVencimiento.Some?
    ensures d.fechaHoraVencimiento.None? ==>
      ToTaskDetails(ToTask(d)) == d.(fechaHoraVencimiento := Some(""))
    ensures ToTask(ToTaskDetails(t)) == t <==> NoExtras(t)
    ensures ToTask(ToTaskDetails(t)) ==
      t.(horaCumplimiento := None, videoUri := None, fotoUri := None, audioUri := None)
    ensures ToTaskUiState(t, false).taskDetails == ToTaskDetails(t) && !ToTaskUiState(t, false).isEntryValid
  {
  }

  lemma TaskRowRoundTrip(t: Task, row: Row<TaskColumns>)
    ensures TaskOf(Row(t.id, TaskColumnsOf(t))) == t
    ensures Row(TaskOf(row).id, TaskColumnsOf(TaskOf(row))) == row
  {
  }

  // ---------------------------------------------------------------------

  class TaskEntryViewModel {
    var taskUiState: TaskUiState
    const tasksRepository: Repository<TaskColumns>

    ghost predicate Valid()
      reads this, tasksRepository
    {
      tasksRepository.Valid()
    }

    constructor (tasksRepository: Repository<TaskColumns>)
      ensures this.tasksRepository == tasksRepository
      ensures taskUiState == DefaultTaskUiState && !taskUiState.isEntryValid
    {
      this.tasksRepository := tasksRepository;
      taskUiState := DefaultTaskUiState;
    }

    /** `updateUiState(taskDetails)`: the details are kept as given and the
        flag is their validity. */
    method UpdateUiState(taskDetails: TaskDetails)
      modifies this
      ensures taskUiState == TaskUiState(taskDetails, ValidateInput(taskDetails))
    {
      taskUiState := TaskUiState(taskDetails, ValidateInput(taskDetails));
    }

    /** `saveTask()`: on a valid form, insert the task it describes; on an
        invalid one, nothing. */
    method SaveTask()
      requires Valid()
      modifies tasksRepository
      ensures Valid()
      ensures tasksRepository.table == if ValidateInput(taskUiState.taskDetails)
        then InsertOrIgnore(old(tasksRepository.table), taskUiState.taskDetails.id,
                            TaskColumnsOf(ToTask(taskUiState.taskDetails)))
        else old(tasksRepository.table)
    {
      if ValidateInput(taskUiState.taskDetails) {
        var task := ToTask(taskUiState.taskDetails);
        tasksRepository.Insert(task.id, TaskColumnsOf(task));
      }
    }
  }

  /** Saving a valid new form (id 0) with a due date stores a task under a
      fresh key that reads back as the same form with that key; every other
      row stays. */
  lemma SaveNewTaskReadsBack(t: Table<TaskColumns>, d: TaskDetails, k: int)
    requires WellFormed(t) && d.id == 0 && ValidateInput(d) && d.fechaHoraVencimiento.Some?
    ensures var key := InsertKey(t, 0);
      var next := InsertOrIgnore(t, d.id, TaskColumnsOf(ToTask(d)));
      && key > t.sequence && !HasKey(t.rows, key)
      && Lookup(next.rows, key).Some?
      && ToTaskDetails(TaskOf(Row(key, Lookup(next.rows, key).value))) == d.(id := key)
      && (k != key ==> Lookup(next.rows, k) == Lookup(t.rows, k))
  {
    GeneratedKeyIsFresh(t, TaskColumnsOf(ToTask(d)));
    InsertOrIgnoreSpec(t, 0, TaskColumnsOf(ToTask(d)));
  }
}
