/**
 * The task edit screen's view model of the AVerSiNoTruena2 iteration: it
 * loads the stored task into the form, validates edits (here a due date is
 * required), and `updateTask` cancels the task's reminders, writes the task
 * and schedules a single reminder at the due time.
 *
 * The cancellation runs in a background coroutine that looks up the work
 * tagged `task_<taskId>` and cancels each of those by id; nothing orders
 * that lookup after the new reminder is enqueued or before it. The model
 * makes the interleaving a parameter: `enqueuedBeforeLookup` is how many of
 * the new reminders are already queued when the lookup happens.
 */
module TaskEdit2 {
  import opened Common
  import opened Tables
  import opened Work
  import opened InventoryData
  import Entry = TaskEntry2

  /** `validateInput`: a title and a description that are not blank, and a
      due date. */
  predicate ValidateInput(d: Entry.TaskDetails) {
    IsNotBlank(d.titulo) && IsNotBlank(d.descripcion) && d.fechaHoraVencimiento.Some?
  }

  /** The edit form's check is the entry form's plus the due date: what is
      valid to edit is valid to enter, and the converse fails exactly when
      the due date is missing. */
  lemma EditValidIsEntryValidWithDueDate(d: Entry.TaskDetails)
    ensures ValidateInput(d) <==> Entry.ValidateInput(d) && d.fechaHoraVencimiento.Some?
    ensures ValidateInput(d) ==> Entry.ValidateInput(d)
    ensures Entry.ValidateInput(d) && d.fechaHoraVencimiento.None? ==> !ValidateInput(d)
  {
  }

  /** The delay `calculateAlarmTimes(dueDateTime)` returns: none for a
      missing or blank due date, one that does not parse, or one not later
      than `now`; otherwise the time left, in `Long` arithmetic. */
  function AlarmTimes(dueDateTime: Option<string>, parse: string -> Option<Long>, now: Long): seq<Long> {
    match dueDateTime
    case None => []
    case Some(s) =>
      if IsBlank(s) then []
      else
        match parse(s)
        case None => []
        case Some(taskTime) => if taskTime > now then [Wrap64(taskTime - now)] else []
  }

  /** `calculateAlarmTimes`. */
  method CalculateAlarmTimes(dueDateTime: Option<string>, parse: string -> Option<Long>, now: Long)
    returns (alarmTimes: seq<Long>)
    ensures alarmTimes == AlarmTimes(dueDateTime, parse, now)
  {
    if dueDateTime.None? || IsBlank(dueDateTime.value) {
      return [];
    }
    alarmTimes := [];
    var parsed := parse(dueDateTime.value);
    if parsed.None? {
      return [];
    }
    var taskTime := parsed.value;
    if taskTime > now {
      alarmTimes := alarmTimes + [Wrap64(taskTime - now)];
    }
  }

  /** At most one reminder, and one exactly when the due date parses to a
      time after `now`; then, with a clock past the epoch, its delay is the
      time left, which is positive. A blank due date gives none. */
  lemma AlarmTimesSpec(dueDateTime: Option<string>, parse: string -> Option<Long>, now: Long)
    ensures |AlarmTimes(dueDateTime, parse, now)| <= 1
    ensures |AlarmTimes(dueDateTime, parse, now)| == 1 <==>
      dueDateTime.Some? && !IsBlank(dueDateTime.value)
      && parse(dueDateTime.value).Some? && parse(dueDateTime.value).value > now
    ensures dueDateTime.Some? && IsBlank(dueDateTime.value) ==> AlarmTimes(dueDateTime, parse, now) == []
    ensures now >= 0 && |AlarmTimes(dueDateTime, parse, now)| == 1 ==>
      AlarmTimes(dueDateTime, parse, now)[0] == parse(dueDateTime.value).value - now
      && AlarmTimes(dueDateTime, parse, now)[0] > 0
  {
  }

  /** The reminders of one task all carry its tag: cancelling that tag after
      they are queued takes every one of them, cancelling another tag none. */
  lemma RemindersUnderTheirTag(task: Task, delays: seq<Long>, other: int)
    ensures RequestsWithoutTag(Entry.ReminderRequests(task, delays), TaskTag(task.id)) == []
    ensures other != task.id ==>
      RequestsWithoutTag(Entry.ReminderRequests(task, delays), TaskTag(other)) == Entry.ReminderRequests(task, delays)
  {
    Entry.ReminderRequestsTagged(task, delays, other);
    RequestsWithoutTagAllOrNone(Entry.ReminderRequests(task, delays), TaskTag(task.id));
    RequestsWithoutTagAllOrNone(Entry.ReminderRequests(task, delays), TaskTag(other));
  }

  // ---------------------------------------------------------------------

  /** The queue after the three steps of `updateTask`: the first new
      reminders are queued, the tag is cancelled, the rest are queued. */
  lemma UpdateSteps(j0: seq<Job>, j1: seq<Job>, j2: seq<Job>, j3: seq<Job>,
                    task: Task, delays: seq<Long>, k: nat, tag: string)
    requires k <= |delays|
    requires Requests(j1) == Requests(j0) + Entry.ReminderRequests(task, delays[..k])
    requires j2 == WithoutTag(j1, tag)
    requires Requests(j3) == Requests(j2) + Entry.ReminderRequests(task, delays[k..])
    ensures Requests(j3) == RequestsWithoutTag(Requests(j0), tag)
      + RequestsWithoutTag(Entry.ReminderRequests(task, delays[..k]), tag)
      + Entry.ReminderRequests(task, delays[k..])
  {
    RequestsOfWithoutTag(j1, tag);
    RequestsWithoutTagAppend(Requests(j0), Entry.ReminderRequests(task, delays[..k]), tag);
  }

  /** One turn of the cancel loop: cancelling the `k`-th looked-up job by id
      after the first `k` is cancelling the first `k + 1`. */
  lemma CancelStep(jobs: seq<Job>, workInfos: seq<Job>, k: nat)
    requires k < |workInfos|
    ensures RemoveIds(RemoveIds(jobs, IdsOf(workInfos[..k])), {workInfos[k].id})
      == RemoveIds(jobs, IdsOf(workInfos[..k + 1]))
  {
    RemoveIdsTwice(jobs, IdsOf(workInfos[..k]), {workInfos[k].id});
    assert workInfos[..k + 1] == workInfos[..k] + [workInfos[k]];
    IdsOfAppend(workInfos[..k], [workInfos[k]]);
    SingleJob(workInfos[k]);
  }

  class TaskEditViewModel {
    var taskUiState: Entry.TaskUiState
    /** The `taskIdArg` navigation argument. */
    const taskId: int
    const tasksRepository: InventoryDatabase
    /** `WorkManager.getInstance(context)`. */
    const workManager: WorkManager

    ghost predicate Valid()
      reads this, tasksRepository, workManager
    {
      tasksRepository.Valid() && workManager.Valid()
    }

    /** Construction and the `init` load: the stored task fills the form,
        flagged valid without being validated. While no task is stored under
        `taskId`, the form keeps its default. */
    constructor (taskId: int, tasksRepository: InventoryDatabase, workManager: WorkManager)
      ensures this.taskId == taskId
      ensures this.tasksRepository == tasksRepository && this.workManager == workManager
      ensures taskUiState == match tasksRepository.GetTask(taskId)
                             case None => Entry.DefaultTaskUiState
                             case Some(task) => Entry.ToTaskUiState(task, true)
    {
      this.taskId := taskId;
      this.tasksRepository := tasksRepository;
      this.workManager := workManager;
      var stored := tasksRepository.GetTask(taskId);
      match stored
      case None => taskUiState := Entry.DefaultTaskUiState;
      case Some(task) => taskUiState := Entry.ToTaskUiState(task, true);
    }

    /** `updateUiState(taskDetails)`: the details are kept as given and the
        flag is their validity for editing. */
    method UpdateUiState(taskDetails: Entry.TaskDetails)
      modifies this
      ensures taskUiState == Entry.TaskUiState(taskDetails, ValidateInput(taskDetails))
    {
      taskUiState := Entry.TaskUiState(taskDetails, ValidateInput(taskDetails));
    }

    /** The body of the background `cancelAlarmsForTask(context, id)`: look
        up the work tagged `task_<id>` and cancel each of it by id. That
        cancels exactly the work with that tag. */
    method CancelAlarmsForTask(id: int)
      requires workManager.Valid()
      modifies workManager
      ensures workManager.Valid()
      ensures workManager.jobs == WithoutTag(old(workManager.jobs), TaskTag(id))
    {
      var workInfos := workManager.GetWorkInfosByTag(TaskTag(id));
      CancelEach(workInfos);
      RemoveTaggedIds(old(workManager.jobs), TaskTag(id));
    }

    /** The `for` loop of `cancelAlarmsForTask`: each listed job is cancelled
        by its id, in turn. */
    method CancelEach(workInfos: seq<Job>)
      requires workManager.Valid()
      modifies workManager
      ensures workManager.Valid()
      ensures workManager.jobs == RemoveIds(old(workManager.jobs), IdsOf(workInfos))
    {
      var k := 0;
      assert workInfos[..0] == [];
      RemoveNoIds(workManager.jobs);
      while k < |workInfos|
        invariant 0 <= k <= |workInfos|
        invariant workManager.Valid()
        invariant workManager.jobs == RemoveIds(old(workManager.jobs), IdsOf(workInfos[..k]))
      {
        CancelStep(old(workManager.jobs), workInfos, k);
        workManager.CancelWorkById(workInfos[k].id);
        k := k + 1;
      }
      assert workInfos[..k] == workInfos;
    }

    /** `scheduleAlarmsForTask(context, task)`. */
    method ScheduleAlarmsForTask(task: Task, parse: string -> Option<Long>, now: Long)
      requires Valid()
      modifies workManager
      ensures Valid()
      ensures Requests(workManager.jobs) == Requests(old(workManager.jobs))
        + Entry.ReminderRequests(task, AlarmTimes(Some(task.fechaHoraVencimiento), parse, now))
    {
      var alarmTimes := CalculateAlarmTimes(Some(task.fechaHoraVencimiento), parse, now);
      Entry.EnqueueReminders(workManager, task, alarmTimes);
    }

    /** `updateTask(context)`: on an invalid form nothing happens. On a valid
        one the task is written, its new reminders are scheduled, and the
        work tagged with the view model's `taskId` that the background lookup
        finds is cancelled; that includes the first `enqueuedBeforeLookup`
        new reminders when they carry the same tag. */
    method UpdateTask(parse: string -> Option<Long>, now: Long, enqueuedBeforeLookup: nat)
      requires Valid()
      modifies tasksRepository, workManager
      ensures Valid()
      ensures !ValidateInput(taskUiState.taskDetails) ==>
        tasksRepository.tasks == old(tasksRepository.tasks) && workManager.jobs == old(workManager.jobs)
      ensures ValidateInput(taskUiState.taskDetails) ==>
        var task := Entry.ToTask(taskUiState.taskDetails);
        var delays := AlarmTimes(Some(task.fechaHoraVencimiento), parse, now);
        var k := if enqueuedBeforeLookup < |delays| then enqueuedBeforeLookup else |delays|;
        && tasksRepository.tasks == UpdateRow(old(tasksRepository.tasks), task.id, TaskColumnsOf(task))
        && Requests(workManager.jobs) ==
             RequestsWithoutTag(Requests(old(workManager.jobs)), TaskTag(taskId))
             + RequestsWithoutTag(Entry.ReminderRequests(task, delays[..k]), TaskTag(taskId))
             + Entry.ReminderRequests(task, delays[k..])
      ensures tasksRepository.alarms == old(tasksRepository.alarms)
    {
      if ValidateInput(taskUiState.taskDetails) {
        var updatedTask := Entry.ToTask(taskUiState.taskDetails);
        SaveUpdatedTask(updatedTask, parse, now, enqueuedBeforeLookup);
      }
    }

    /** The valid branch of `updateTask`: the task row is rewritten and its
        reminders rescheduled. */
    method SaveUpdatedTask(task: Task, parse: string -> Option<Long>, now: Long, enqueuedBeforeLookup: nat)
      requires Valid()
      modifies tasksRepository, workManager
      ensures Valid()
      ensures var delays := AlarmTimes(Some(task.fechaHoraVencimiento), parse, now);
        var k := if enqueuedBeforeLookup < |delays| then enqueuedBeforeLookup else |delays|;
        && tasksRepository.tasks == UpdateRow(old(tasksRepository.tasks), task.id, TaskColumnsOf(task))
        && Requests(workManager.jobs) ==
             RequestsWithoutTag(Requests(old(workManager.jobs)), TaskTag(taskId))
             + RequestsWithoutTag(Entry.ReminderRequests(task, delays[..k]), TaskTag(taskId))
             + Entry.ReminderRequests(task, delays[k..])
      ensures tasksRepository.alarms == old(tasksRepository.alarms)
    {
      tasksRepository.UpdateTask(task);
      var alarmTimes := CalculateAlarmTimes(Some(task.fechaHoraVencimiento), parse, now);
      var k := if enqueuedBeforeLookup < |alarmTimes| then enqueuedBeforeLookup else |alarmTimes|;
      RescheduleAlarms(task, alarmTimes, k);
    }

    /** The work part of `updateTask`: the background cancellation of the
        work tagged with `taskId` interleaved with the enqueues of the new
        reminders, the lookup coming after the first `k` of them. */
    method RescheduleAlarms(task: Task, delays: seq<Long>, k: nat)
      requires workManager.Valid() && k <= |delays|
      modifies workManager
      ensures workManager.Valid()
      ensures Requests(workManager.jobs) ==
        RequestsWithoutTag(Requests(old(workManager.jobs)), TaskTag(taskId))
        + RequestsWithoutTag(Entry.ReminderRequests(task, delays[..k]), TaskTag(taskId))
        + Entry.ReminderRequests(task, delays[k..])
    {
      ghost var j0 := workManager.jobs;
      Entry.EnqueueReminders(workManager, task, delays[..k]);
      ghost var j1 := workManager.jobs;
      CancelAlarmsForTask(taskId);
      ghost var j2 := workManager.jobs;
      Entry.EnqueueReminders(workManager, task, delays[k..]);
      UpdateSteps(j0, j1, j2, workManager.jobs, task, delays, k, TaskTag(taskId));
    }
  }

  /** What the update leaves queued, tag by tag, when the lookup comes after
      `k` new reminders of the same task: under the task's tag only the new
      reminders from the `k`-th on, so all of them when the lookup comes
      first, and under every other tag exactly the requests queued before. */
  lemma UpdateQueueByTag(before: seq<WorkRequest>, task: Task, delays: seq<Long>, k: nat, other: string)
    requires k <= |delays|
    ensures var after := RequestsWithoutTag(before, TaskTag(task.id))
                         + RequestsWithoutTag(Entry.ReminderRequests(task, delays[..k]), TaskTag(task.id))
                         + Entry.ReminderRequests(task, delays[k..]);
      && RequestsWithTag(after, TaskTag(task.id)) == Entry.ReminderRequests(task, delays[k..])
      && (k == 0 ==> RequestsWithTag(after, TaskTag(task.id)) == Entry.ReminderRequests(task, delays))
      && (other != TaskTag(task.id) ==> RequestsWithTag(after, other) == RequestsWithTag(before, other))
  {
    var early := Entry.ReminderRequests(task, delays[..k]);
    var late := Entry.ReminderRequests(task, delays[k..]);
    Entry.ReminderRequestsTagged(task, delays[..k], task.id);
    Entry.ReminderRequestsTagged(task, delays[k..], task.id);
    RequeueTagged(before, early, late, TaskTag(task.id), other);
    if k == 0 {
      assert delays[k..] == delays;
    }
  }

  /** When the lookup comes after `k` new reminders of the same task are
      queued, those `k` are cancelled with the old ones: the task is left
      with only the rest of its new reminders. */
  lemma UpdateAfterEnqueueLosesReminders(jobs: seq<WorkRequest>, task: Task, delays: seq<Long>, k: nat)
    requires k <= |delays|
    ensures RequestsWithoutTag(jobs, TaskTag(task.id))
              + RequestsWithoutTag(Entry.ReminderRequests(task, delays[..k]), TaskTag(task.id))
              + Entry.ReminderRequests(task, delays[k..])
            == RequestsWithoutTag(jobs, TaskTag(task.id)) + Entry.ReminderRequests(task, delays[k..])
  {
    RemindersUnderTheirTag(task, delays[..k], task.id);
  }
}
