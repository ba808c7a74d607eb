/**
 * The task details screen's view model of the AVerSiNoTruena2 iteration:
 * it shows the stored task, marks it completed and deletes it.
 *
 * `uiState` is a flow of the stored task that skips `null` and starts from
 * a default; the model holds its current value in a field and lets
 * `Refresh` deliver the row now stored, the way the flow would.
 */
module TaskDetails2 {
  import opened Common
  import opened Tables
  import opened InventoryData

  /** The shown fields. */
  datatype TaskDetailsInfo = TaskDetailsInfo(
    id: int,
    titulo: string,
    descripcion: string,
    fechaHoraVencimiento: Option<string>,
    estado: bool)

  /** `TaskDetailsInfo()`. */
  const DefaultTaskDetailsInfo: TaskDetailsInfo := TaskDetailsInfo(0, "", "", None, false)

  datatype TaskDetailsUiState = TaskDetailsUiState(isCompleted: bool, taskDetails: TaskDetailsInfo)

  /** `TaskDetailsUiState()`, the flow's initial value. */
  const DefaultTaskDetailsUiState: TaskDetailsUiState := TaskDetailsUiState(false, DefaultTaskDetailsInfo)

  /** `Task.toTaskDetailsInfo()`. */
  function ToTaskDetailsInfo(t: Task): TaskDetailsInfo {
    TaskDetailsInfo(t.id, t.titulo, t.descripcion, Some(t.fechaHoraVencimiento), t.estado)
  }

  /** `TaskDetailsInfo.toTask()`: a missing due date becomes `""`. */
  function ToTask(i: TaskDetailsInfo): Task {
    Task(i.id, i.titulo, i.descripcion,
         match i.fechaHoraVencimiento case None => "" case Some(s) => s,
         i.estado)
  }

  /** A task survives the trip through the shown fields unchanged; the
      fields survive the trip through a task exactly when they hold a due
      date, a missing one coming back as `""`. */
  lemma InfoRoundTrips(t: Task, i: TaskDetailsInfo)
    ensures ToTask(ToTaskDetailsInfo(t)) == t
    ensures ToTaskDetailsInfo(ToTask(i)) == i <==> i.fechaHoraVencimiento.Some?
    ensures i.fechaHoraVencimiento.None? ==>
      ToTaskDetailsInfo(ToTask(i)) == i.(fechaHoraVencimiento := Some(""))
  {
  }

  /** The state the flow maps a stored task to. */
  function UiStateOf(t: Task): (s: TaskDetailsUiState)
    ensures s.isCompleted == t.estado
    ensures s.taskDetails.id == t.id && ToTask(s.taskDetails) == t
  {
    TaskDetailsUiState(t.estado, ToTaskDetailsInfo(t))
  }

  /** The state after the flow sees the stored row (`filterNotNull`: a
      missing row leaves the state as it was). */
  function Collected(stored: Option<Task>, previous: TaskDetailsUiState): (s: TaskDetailsUiState)
    ensures stored.None? ==> s == previous
    ensures stored.Some? ==> s.isCompleted == stored.value.estado && ToTask(s.taskDetails) == stored.value
  {
    match stored
    case None => previous
    case Some(t) => UiStateOf(t)
  }

  /** The task `completeTask` writes for the shown fields: the shown task
      with `estado` set, or nothing when it is already completed. */
  function CompletedTask(i: TaskDetailsInfo): (r: Option<Task>)
    ensures r.None? <==> i.estado
    ensures r.Some? ==> r.value.estado && r.value.(estado := false) == ToTask(i)
  {
    var current := ToTask(i);
    if !current.estado then Some(current.(estado := true)) else None
  }

  /** The tasks table after `completeTask`. */
  function Complete(tasks: Table<TaskColumns>, i: TaskDetailsInfo): Table<TaskColumns> {
    match CompletedTask(i)
    case None => tasks
    case Some(t) => UpdateRow(tasks, t.id, TaskColumnsOf(t))
  }

  /** Completing a shown task that is stored leaves its row with the same
      fields and `estado` set and every other row as it was; a task shown as
      completed is not written. */
  lemma CompleteSpec(tasks: Table<TaskColumns>, i: TaskDetailsInfo, k: int)
    requires WellFormed(tasks)
    ensures WellFormed(Complete(tasks, i))
    ensures i.estado ==> Complete(tasks, i) == tasks
    ensures k != i.id ==> Lookup(Complete(tasks, i).rows, k) == Lookup(tasks.rows, k)
    ensures HasKey(tasks.rows, i.id) && !i.estado ==>
      Lookup(Complete(tasks, i).rows, i.id) == Some(TaskColumnsOf(ToTask(i).(estado := true)))
  {
    if !i.estado {
      UpdateRowSpec(tasks, i.id, TaskColumnsOf(ToTask(i).(estado := true)));
    }
  }

  /** `completeTask` twice on the same shown fields is `completeTask` once;
      and once the flow shows the row it completed, a further `completeTask`
      writes nothing. */
  lemma CompleteIdempotent(tasks: Table<TaskColumns>, i: TaskDetailsInfo)
    requires WellFormed(tasks) && HasKey(tasks.rows, i.id)
    ensures Complete(Complete(tasks, i), i) == Complete(tasks, i)
    ensures Lookup(Complete(tasks, i).rows, i.id).Some?
    ensures !i.estado ==>
      var shown := UiStateOf(TaskOf(Row(i.id, Lookup(Complete(tasks, i).rows, i.id).value)));
      shown.isCompleted && Complete(Complete(tasks, i), shown.taskDetails) == Complete(tasks, i)
  {
    if !i.estado {
      UpdateRowIdempotent(tasks, i.id, TaskColumnsOf(ToTask(i).(estado := true)));
    }
    CompleteSpec(tasks, i, i.id);
  }

  // ---------------------------------------------------------------------

  class TaskDetailsViewModel {
    /** The flow's current value. */
    var uiState: TaskDetailsUiState
    /** The `taskIdArg` navigation argument. */
    const taskId: int
    const tasksRepository: InventoryDatabase

    ghost predicate Valid()
      reads this, tasksRepository
    {
      tasksRepository.Valid()
    }

    /** Construction: the flow starts from its initial value. */
    constructor (taskId: int, tasksRepository: InventoryDatabase)
      ensures this.taskId == taskId && this.tasksRepository == tasksRepository
      ensures uiState == DefaultTaskDetailsUiState
      ensures !uiState.isCompleted && uiState.taskDetails == DefaultTaskDetailsInfo
    {
      this.taskId := taskId;
      this.tasksRepository := tasksRepository;
      uiState := DefaultTaskDetailsUiState;
    }

    /** The flow delivering the row now stored under `taskId`. */
    method Refresh()
      modifies this
      ensures uiState == Collected(tasksRepository.GetTask(taskId), old(uiState))
    {
      var stored := tasksRepository.GetTask(taskId);
      if stored.Some? {
        uiState := UiStateOf(stored.value);
      }
    }

    /** `completeTask()`. */
    method CompleteTask()
      requires Valid()
      modifies tasksRepository
      ensures Valid()
      ensures tasksRepository.tasks == Complete(old(tasksRepository.tasks), uiState.taskDetails)
      ensures tasksRepository.alarms == old(tasksRepository.alarms)
    {
      var currentTask := ToTask(uiState.taskDetails);
      if !currentTask.estado {
        tasksRepository.UpdateTask(currentTask.(estado := true));
      }
    }

    /** `deleteTask()`: the shown task's row goes, and its alarms with it. */
    method DeleteTask()
      requires Valid()
      modifies tasksRepository
      ensures Valid()
      ensures tasksRepository.tasks == DeleteRow(old(tasksRepository.tasks), uiState.taskDetails.id)
      ensures tasksRepository.alarms == WithoutAlarmsOf(old(tasksRepository.alarms), uiState.taskDetails.id)
    {
      tasksRepository.DeleteTask(ToTask(uiState.taskDetails));
    }
  }
}
