/**
 * The task entry screen's view model of the AVerSiNoTruena2 iteration: the
 * form state and its validation, the conversions between the form and a
 * `Task`, the reminder delays computed from the due date, and `saveTask`,
 * which stores the task and schedules its reminders tagged `task_<id>`.
 *
 * The date parser (`SimpleDateFormat("yyyy-MM-dd HH:mm").parse(...).time`)
 * is the parameter `parse`, `None` standing for a failed parse; the clock
 * (`System.currentTimeMillis()`) is the parameter `now`.
 */
module TaskEntry2 {
  import opened Common
  import opened Tables
  import opened Work
  import opened InventoryData

  /** The form's fields. */
  datatype TaskDetails = TaskDetails(
    id: int,
    titulo: string,
    descripcion: string,
    fechaHoraVencimiento: Option<string>,
    estado: bool)

  /** `TaskDetails()`. */
  const DefaultTaskDetails: TaskDetails := TaskDetails(0, "", "", None, false)

  datatype TaskUiState = TaskUiState(taskDetails: TaskDetails, isEntryValid: bool)

  /** `TaskUiState()`. */
  const DefaultTaskUiState: TaskUiState := TaskUiState(DefaultTaskDetails, false)

  /** `validateInput`: a title and a description that are not blank; the due
      date is not required. */
  predicate ValidateInput(d: TaskDetails) {
    IsNotBlank(d.titulo) && IsNotBlank(d.descripcion)
  }

  /** The form is valid exactly when neither the title nor the description
      is empty once leading whitespace is trimmed, whatever the other fields
      hold; so the default form is not valid. */
  lemma ValidateInputSpec(d: TaskDetails)
    ensures ValidateInput(d) <==> TrimStart(d.titulo) != [] && TrimStart(d.descripcion) != []
    ensures ValidateInput(d) <==> ValidateInput(d.(id := 0, fechaHoraVencimiento := None, estado := false))
    ensures !ValidateInput(DefaultTaskDetails)
  {
    BlankIffTrimsToEmpty(d.titulo);
    BlankIffTrimsToEmpty(d.descripcion);
  }

  /** `TaskDetails.toTask()`: a missing due date becomes `""`. */
  function ToTask(d: TaskDetails): Task {
    Task(d.id, d.titulo, d.descripcion,
         match d.fechaHoraVencimiento case None => "" case Some(s) => s,
         d.estado)
  }

  /** `Task.toTaskDetails()`. */
  function ToTaskDetails(t: Task): TaskDetails {
    TaskDetails(t.id, t.titulo, t.descripcion, Some(t.fechaHoraVencimiento), t.estado)
  }

  /** `Task.toTaskUiState(isEntryValid = false)`. */
  function ToTaskUiState(t: Task, isEntryValid: bool): TaskUiState {
    TaskUiState(ToTaskDetails(t), isEntryValid)
  }

  /** A task survives the trip through the form unchanged; the form survives
      the trip through a task exactly when it has a due date, a missing one
      coming back as `""`. */
  lemma TaskRoundTrips(t: Task, d: TaskDetails)
    ensures ToTask(ToTaskDetails(t)) == t
    ensures ToTaskDetails(ToTask(d)) == d <==> d.fechaHoraVencimiento.Some?
    ensures d.fechaHoraVencimiento.None? ==>
      ToTaskDetails(ToTask(d)) == d.(fechaHoraVencimiento := Some(""))
    ensures ToTaskUiState(t, true).taskDetails == ToTaskDetails(t)
    ensures ValidateInput(ToTaskDetails(t)) <==> ValidateInput(d.(titulo := t.titulo, descripcion := t.descripcion))
  {
  }

  // ---------------------------------------------------------------------
  // Reminder delays

  const FIVE_MINUTES: int := 5 * 60 * 1000
  const THIRTY_MINUTES: int := 30 * 60 * 1000
  const ONE_HOUR: int := 60 * 60 * 1000
  const TWELVE_HOURS: int := 12 * 60 * 60 * 1000
  const ONE_DAY: int := 24 * 60 * 60 * 1000

  /** How long before the due time each reminder fires, in the order the
      reminders are added. */
  const LeadTimes: seq<int> := [FIVE_MINUTES, THIRTY_MINUTES, ONE_HOUR, TWELVE_HOURS, ONE_DAY]

  /** One delay `d - o` for each lead time `o` shorter than the time `d` left,
      in the order of the lead times. */
  function DelaysBefore(d: int, leads: seq<int>): seq<int> {
    if leads == [] then []
    else (if d > leads[0] then [d - leads[0]] else []) + DelaysBefore(d, leads[1..])
  }

  /** How many of the lead times are shorter than `d`. */
  function CountBelow(d: int, leads: seq<int>): nat {
    if leads == [] then 0
    else (if leads[0] < d then 1 else 0) + CountBelow(d, leads[1..])
  }

  ghost predicate Increasing(leads: seq<int>) {
    forall i, j :: 0 <= i < j < |leads| ==> leads[i] < leads[j]
  }

  lemma {:induction false} NoneBelow(d: int, leads: seq<int>)
    requires forall i :: 0 <= i < |leads| ==> d <= leads[i]
    ensures DelaysBefore(d, leads) == [] && CountBelow(d, leads) == 0
  {
    if leads != [] {
      assert forall i :: 0 <= i < |leads[1..]| ==> leads[1..][i] == leads[i + 1];
      NoneBelow(d, leads[1..]);
    }
  }

  /** For increasing lead times, the ones shorter than `d` are a prefix, and
      the delays are `d` minus each of them in turn. */
  lemma {:induction false} DelaysBeforePrefix(d: int, leads: seq<int>)
    requires Increasing(leads)
    ensures CountBelow(d, leads) <= |leads|
    ensures forall i :: 0 <= i < |leads| ==> (i < CountBelow(d, leads) <==> leads[i] < d)
    ensures DelaysBefore(d, leads) ==
      seq(CountBelow(d, leads), i requires 0 <= i < CountBelow(d, leads) && i < |leads| => d - leads[i])
  {
    if leads != [] {
      var tail := leads[1..];
      assert forall i :: 0 <= i < |tail| ==> tail[i] == leads[i + 1];
      assert Increasing(tail);
      if leads[0] < d {
        DelaysBeforePrefix(d, tail);
        var n := CountBelow(d, leads);
        assert n == 1 + CountBelow(d, tail);
        forall i | 0 <= i < |leads| ensures (i < n <==> leads[i] < d) {
          if i > 0 { assert leads[i] == tail[i - 1]; }
        }
        var r := DelaysBefore(d, leads);
        assert r == [d - leads[0]] + DelaysBefore(d, tail);
        forall i | 0 <= i < n ensures r[i] == d - leads[i] {
          if i > 0 { assert r[i] == DelaysBefore(d, tail)[i - 1]; }
        }
      } else {
        NoneBelow(d, leads);
      }
    }
  }

  lemma LeadTimesIncreasing()
    ensures Increasing(LeadTimes) && |LeadTimes| == 5 && LeadTimes[0] == FIVE_MINUTES
  {
  }

  /** With `d` the time left: the `i`-th delay is `d` minus the `i`-th lead
      time, there is one exactly for each lead time shorter than `d`, so if a
      longer lead time is included every shorter one is too, there are at
      most five, and none when at most five minutes are left. */
  lemma ReminderDelaysExact(d: int)
    ensures |DelaysBefore(d, LeadTimes)| <= 5
    ensures forall i :: 0 <= i < 5 ==> (i < |DelaysBefore(d, LeadTimes)| <==> LeadTimes[i] < d)
    ensures forall i :: 0 <= i < |DelaysBefore(d, LeadTimes)| ==> DelaysBefore(d, LeadTimes)[i] == d - LeadTimes[i]
    ensures d <= FIVE_MINUTES ==> DelaysBefore(d, LeadTimes) == []
  {
    LeadTimesIncreasing();
    DelaysBeforePrefix(d, LeadTimes);
    if d <= FIVE_MINUTES {
      NoneBelow(d, LeadTimes);
    }
  }

  /** Every delay is positive and shorter than the time left, and each comes
      later than the one before. */
  lemma ReminderDelaysBounds(d: int)
    ensures forall i :: 0 <= i < |DelaysBefore(d, LeadTimes)| ==> 0 < DelaysBefore(d, LeadTimes)[i] < d
    ensures forall i, j :: 0 <= i < j < |DelaysBefore(d, LeadTimes)| ==>
      DelaysBefore(d, LeadTimes)[i] > DelaysBefore(d, LeadTimes)[j]
  {
    ReminderDelaysExact(d);
    LeadTimesIncreasing();
  }

  /** The delays `calculateAlarmTimes(dueDateTime)` returns: none without a
      due date or when it does not parse, otherwise one per lead time before
      the due time, counted from `now` in `Long` arithmetic. */
  function AlarmTimes(dueDateTime: Option<string>, parse: string -> Option<Long>, now: Long): seq<Long> {
    match dueDateTime
    case None => []
    case Some(s) =>
      match parse(s)
      case None => []
      case Some(taskTime) =>
        var d := Wrap64(taskTime - now);
        ReminderDelaysBounds(d);
        DelaysBefore(d, LeadTimes)
  }

  /** A due date that parses gives one delay per lead time before it. */
  lemma AlarmTimesParsed(dueDateTime: string, parse: string -> Option<Long>, now: Long)
    requires parse(dueDateTime).Some?
    ensures AlarmTimes(Some(dueDateTime), parse, now) ==
      DelaysBefore(Wrap64(parse(dueDateTime).value - now), LeadTimes)
  {
  }

  lemma {:induction false} DelaysBeforeAppend(d: int, a: seq<int>, b: seq<int>)
    ensures DelaysBefore(d, a + b) == DelaysBefore(d, a) + DelaysBefore(d, b)
  {
    if a == [] {
      assert a + b == b;
    } else {
      assert (a + b)[0] == a[0];
      assert (a + b)[1..] == a[1..] + b;
      DelaysBeforeAppend(d, a[1..], b);
    }
  }

  /** The check for the `k`-th lead time adds its delay after those of the
      shorter lead times. */
  lemma DelaysStep(d: int, k: int)
    requires 0 <= k < |LeadTimes|
    ensures DelaysBefore(d, LeadTimes[..k + 1]) ==
      DelaysBefore(d, LeadTimes[..k]) + (if d > LeadTimes[k] then [d - LeadTimes[k]] else [])
  {
    assert LeadTimes[..k + 1] == LeadTimes[..k] + [LeadTimes[k]];
    DelaysBeforeAppend(d, LeadTimes[..k], [LeadTimes[k]]);
    assert [LeadTimes[k]][1..] == [];
  }

  /** The delay one lead time contributes: none unless it is shorter than
      the time left. */
  function Check(d: int, lead: int): seq<int> {
    if d > lead then [d - lead] else []
  }

  /** The delays before the five lead times, spelled out one check at a
      time. */
  lemma {:induction false} DelaysBeforeLeadTimes(d: int)
    ensures DelaysBefore(d, LeadTimes) ==
      Check(d, FIVE_MINUTES) + Check(d, THIRTY_MINUTES) + Check(d, ONE_HOUR)
      + Check(d, TWELVE_HOURS) + Check(d, ONE_DAY)
  {
    assert LeadTimes[..0] == [];
    DelaysStep(d, 0);
    DelaysStep(d, 1);
    DelaysStep(d, 2);
    DelaysStep(d, 3);
    DelaysStep(d, 4);
    assert LeadTimes[..5] == LeadTimes;
  }

  /** `calculateAlarmTimes`: five checks in turn, each adding one delay. */
  method CalculateAlarmTimes(dueDateTime: Option<string>, parse: string -> Option<Long>, now: Long)
    returns (alarmTimes: seq<Long>)
    ensures alarmTimes == AlarmTimes(dueDateTime, parse, now)
  {
    alarmTimes := [];
    if dueDateTime.None? {
      return [];
    }
    var parsed := parse(dueDateTime.value);
    if parsed.None? {
      return [];
    }
    var taskTime := parsed.value;
    var d := Wrap64(taskTime - now);
    AlarmTimesParsed(dueDateTime.value, parse, now);
    DelaysBeforeLeadTimes(d);
    // Each guard keeps its `Long` subtraction in range: none of them wraps.
    if d > FIVE_MINUTES { alarmTimes := alarmTimes + [d - FIVE_MINUTES]; }
    assert alarmTimes == Check(d, FIVE_MINUTES);
    if d > THIRTY_MINUTES { alarmTimes := alarmTimes + [d - THIRTY_MINUTES]; }
    assert alarmTimes == Check(d, FIVE_MINUTES) + Check(d, THIRTY_MINUTES);
    if d > ONE_HOUR { alarmTimes := alarmTimes + [d - ONE_HOUR]; }
    assert alarmTimes == Check(d, FIVE_MINUTES) + Check(d, THIRTY_MINUTES) + Check(d, ONE_HOUR);
    if d > TWELVE_HOURS { alarmTimes := alarmTimes + [d - TWELVE_HOURS]; }
    assert alarmTimes == Check(d, FIVE_MINUTES) + Check(d, THIRTY_MINUTES) + Check(d, ONE_HOUR)
      + Check(d, TWELVE_HOURS);
    if d > ONE_DAY { alarmTimes := alarmTimes + [d - ONE_DAY]; }
  }

  /** A missing or unparseable due date gives no reminders. */
  lemma NoDueDateNoReminders(dueDateTime: Option<string>, parse: string -> Option<Long>, now: Long)
    requires dueDateTime.None? || parse(dueDateTime.value).None?
    ensures AlarmTimes(dueDateTime, parse, now) == []
  {
  }

  /** A form without a due date is saved with the due date `""`, which
      `SimpleDateFormat` rejects with a `ParseException`: such a task gets
      no reminders. */
  lemma NoDueDateFormNoReminders(d: TaskDetails, parse: string -> Option<Long>, now: Long)
    requires d.fechaHoraVencimiento.None? && parse("") == None
    ensures ToTask(d).fechaHoraVencimiento == ""
    ensures AlarmTimes(Some(ToTask(d).fechaHoraVencimiento), parse, now) == []
  {
  }

  // ---------------------------------------------------------------------
  // Scheduling

  /** The work request of one reminder of the task. */
  function ReminderRequest(task: Task, delay: Long): WorkRequest {
    WorkRequest(TaskTag(task.id), delay, task.titulo, task.descripcion)
  }

  /** The requests of the reminders with the given delays, in order. */
  function ReminderRequests(task: Task, delays: seq<Long>): (r: seq<WorkRequest>)
    ensures |r| == |delays|
    ensures forall i :: 0 <= i < |delays| ==> r[i] == ReminderRequest(task, delays[i])
  {
    seq(|delays|, i requires 0 <= i < |delays| => ReminderRequest(task, delays[i]))
  }

  /** Every reminder of a task carries the task's tag, a delay of the list
      and the task's title and description; so cancelling the tag cancels
      them all, and a tag of another task none of them. */
  lemma ReminderRequestsTagged(task: Task, delays: seq<Long>, other: int)
    ensures forall i :: 0 <= i < |delays| ==>
      ReminderRequests(task, delays)[i].tag == TaskTag(task.id)
      && ReminderRequests(task, delays)[i].delay == delays[i]
      && ReminderRequests(task, delays)[i].title == task.titulo
      && ReminderRequests(task, delays)[i].description == task.descripcion
    ensures other != task.id ==> forall i :: 0 <= i < |delays| ==>
      ReminderRequests(task, delays)[i].tag != TaskTag(other)
  {
    if other != task.id {
      forall i | 0 <= i < |delays| ensures ReminderRequests(task, delays)[i].tag != TaskTag(other) {
        if TaskTag(task.id) == TaskTag(other) {
          TaskTagInjective(task.id, other);
        }
      }
    }
  }

  /** One turn of the loop below: queueing the reminder of the `k`-th delay
      extends the queue by that reminder. */
  lemma EnqueueStep(before: seq<Job>, prev: seq<Job>, job: Job, task: Task, delays: seq<Long>, k: nat)
    requires k < |delays| && job.request == ReminderRequest(task, delays[k])
    requires |prev| == |before| + k && prev[..|before|] == before
    requires Requests(prev) == Requests(before) + ReminderRequests(task, delays[..k])
    ensures |prev + [job]| == |before| + k + 1 && (prev + [job])[..|before|] == before
    ensures Requests(prev + [job]) == Requests(before) + ReminderRequests(task, delays[..k + 1])
  {
    RequestsAppend(prev, [job]);
    assert (prev + [job])[..|before|] == prev[..|before|];
    assert delays[..k + 1] == delays[..k] + [delays[k]];
    assert ReminderRequests(task, delays[..k + 1]) == ReminderRequests(task, delays[..k]) + [ReminderRequest(task, delays[k])];
  }

  /** The `alarmTimes.forEach { ... workManager.enqueue(...) }` loop of
      `scheduleAlarmsForTask`: one reminder per delay, in order, after the
      work already queued. */
  method EnqueueReminders(workManager: WorkManager, task: Task, delays: seq<Long>)
    requires workManager.Valid()
    modifies workManager
    ensures workManager.Valid()
    ensures |workManager.jobs| == |old(workManager.jobs)| + |delays|
    ensures workManager.jobs[..|old(workManager.jobs)|] == old(workManager.jobs)
    ensures Requests(workManager.jobs) == Requests(old(workManager.jobs)) + ReminderRequests(task, delays)
  {
    ghost var before := workManager.jobs;
    var k := 0;
    while k < |delays|
      invariant 0 <= k <= |delays|
      invariant workManager.Valid()
      invariant |workManager.jobs| == |before| + k
      invariant workManager.jobs[..|before|] == before
      invariant Requests(workManager.jobs) == Requests(before) + ReminderRequests(task, delays[..k])
    {
      ghost var prev := workManager.jobs;
      ghost var job := Job(workManager.nextId, ReminderRequest(task, delays[k]));
      workManager.Enqueue(ReminderRequest(task, delays[k]));
      EnqueueStep(before, prev, job, task, delays, k);
      k := k + 1;
    }
    assert delays[..k] == delays;
  }

  // ---------------------------------------------------------------------

  class TaskEntryViewModel {
    var taskUiState: TaskUiState
    const tasksRepository: InventoryDatabase
    /** `WorkManager.getInstance(context)`. */
    const workManager: WorkManager

    ghost predicate Valid()
      reads this, tasksRepository, workManager
    {
      tasksRepository.Valid() && workManager.Valid()
    }

    constructor (tasksRepository: InventoryDatabase, workManager: WorkManager)
      ensures this.tasksRepository == tasksRepository && this.workManager == workManager
      ensures taskUiState == DefaultTaskUiState
    {
      this.tasksRepository := tasksRepository;
      this.workManager := workManager;
      taskUiState := DefaultTaskUiState;
    }

    /** `updateUiState(taskDetails)`: the details are kept as given and the
        flag is their validity. */
    method UpdateUiState(taskDetails: TaskDetails)
      modifies this
      ensures taskUiState == TaskUiState(taskDetails, ValidateInput(taskDetails))
    {
      taskUiState := TaskUiState(taskDetails, ValidateInput(taskDetails));
    }

    /** `cancelAlarmsForTask(context, taskId)`. */
    method CancelAlarmsForTask(taskId: int)
      requires Valid()
      modifies workManager
      ensures Valid()
      ensures workManager.jobs == WithoutTag(old(workManager.jobs), TaskTag(taskId))
    {
      workManager.CancelAllWorkByTag(TaskTag(taskId));
    }

    /** `scheduleAlarmsForTask(context, task)`: a reminder per delay computed
        from the task's due date, tagged with `task.id`. */
    method ScheduleAlarmsForTask(task: Task, parse: string -> Option<Long>, now: Long)
      requires Valid()
      modifies workManager
      ensures Valid()
      ensures |workManager.jobs| >= |old(workManager.jobs)|
      ensures workManager.jobs[..|old(workManager.jobs)|] == old(workManager.jobs)
      ensures Requests(workManager.jobs) == Requests(old(workManager.jobs))
        + ReminderRequests(task, AlarmTimes(Some(task.fechaHoraVencimiento), parse, now))
    {
      var alarmTimes := CalculateAlarmTimes(Some(task.fechaHoraVencimiento), parse, now);
      EnqueueReminders(workManager, task, alarmTimes);
    }

    /** `saveTask(context)`, as written: on a valid form, cancel the task's
        reminders if it has an id, insert it, and schedule its reminders
        tagged with the form's id; on an invalid form, nothing. */
    method SaveTask(parse: string -> Option<Long>, now: Long)
      requires Valid()
      modifies tasksRepository, workManager
      ensures Valid()
      ensures !ValidateInput(taskUiState.taskDetails) ==>
        tasksRepository.tasks == old(tasksRepository.tasks) && workManager.jobs == old(workManager.jobs)
      ensures ValidateInput(taskUiState.taskDetails) ==>
        var task := ToTask(taskUiState.taskDetails);
        && tasksRepository.tasks == InsertOrIgnore(old(tasksRepository.tasks), task.id, TaskColumnsOf(task))
        && Requests(workManager.jobs) ==
             Requests(if task.id != 0 then WithoutTag(old(workManager.jobs), TaskTag(task.id)) else old(workManager.jobs))
             + ReminderRequests(task, AlarmTimes(Some(task.fechaHoraVencimiento), parse, now))
      ensures tasksRepository.alarms == old(tasksRepository.alarms)
    {
      if ValidateInput(taskUiState.taskDetails) {
        var task := ToTask(taskUiState.taskDetails);
        if task.id != 0 {
          CancelAlarmsForTask(task.id);
        }
        tasksRepository.InsertTask(task);
        ScheduleAlarmsForTask(task, parse, now);
      }
    }

    /** `saveTask` with the reminders tagged with the key the task is stored
        under: the one the form carries, or the generated one for a new
        task. */
    method SaveTaskTaggedWithKey(parse: string -> Option<Long>, now: Long)
      requires Valid()
      modifies tasksRepository, workManager
      ensures Valid()
      ensures !ValidateInput(taskUiState.taskDetails) ==>
        tasksRepository.tasks == old(tasksRepository.tasks) && workManager.jobs == old(workManager.jobs)
      ensures ValidateInput(taskUiState.taskDetails) ==>
        var task := ToTask(taskUiState.taskDetails);
        var key := InsertKey(old(tasksRepository.tasks), task.id);
        && tasksRepository.tasks == InsertOrIgnore(old(tasksRepository.tasks), task.id, TaskColumnsOf(task))
        && Requests(workManager.jobs) ==
             Requests(if task.id != 0 then WithoutTag(old(workManager.jobs), TaskTag(task.id)) else old(workManager.jobs))
             + ReminderRequests(task.(id := key), AlarmTimes(Some(task.fechaHoraVencimiento), parse, now))
      ensures tasksRepository.alarms == old(tasksRepository.alarms)
    {
      if ValidateInput(taskUiState.taskDetails) {
        var task := ToTask(taskUiState.taskDetails);
        if task.id != 0 {
          CancelAlarmsForTask(task.id);
        }
        var key := InsertKey(tasksRepository.tasks, task.id);
        tasksRepository.InsertTask(task);
        ScheduleAlarmsForTask(task.(id := key), parse, now);
      }
    }
  }

  /** As written, the reminders of a new task (id 0) are tagged `task_0`,
      while the task is stored under a generated key of at least 1: no
      reminder of it carries its key's tag, so cancelling by that tag, as
      editing or saving the task again does, leaves every one of them
      queued. */
  lemma NewTaskRemindersMissTheirKey(tasks: Table<TaskColumns>, d: TaskDetails, delays: seq<Long>)
    requires WellFormed(tasks) && d.id == 0
    ensures InsertKey(tasks, ToTask(d).id) >= 1
    ensures forall i :: 0 <= i < |delays| ==>
      ReminderRequests(ToTask(d), delays)[i].tag == "task_0"
      && ReminderRequests(ToTask(d), delays)[i].tag != TaskTag(InsertKey(tasks, ToTask(d).id))
    ensures RequestsWithoutTag(ReminderRequests(ToTask(d), delays), TaskTag(InsertKey(tasks, ToTask(d).id)))
      == ReminderRequests(ToTask(d), delays)
  {
    var key := InsertKey(tasks, 0);
    assert TaskTag(0) == "task_0" by {
      assert IntToString(0) == [DigitChar(0)];
    }
    ReminderRequestsTagged(ToTask(d), delays, key);
    RequestsWithoutTagAllOrNone(ReminderRequests(ToTask(d), delays), TaskTag(key));
  }

  /** Corrected, the reminders of a task carry the tag of its key, so
      cancelling that tag reaches all of them. */
  lemma KeyTaggedRemindersFollowTheirKey(tasks: Table<TaskColumns>, d: TaskDetails, delays: seq<Long>)
    requires WellFormed(tasks)
    ensures forall i :: 0 <= i < |delays| ==>
      ReminderRequests(ToTask(d).(id := InsertKey(tasks, ToTask(d).id)), delays)[i].tag
        == TaskTag(InsertKey(tasks, ToTask(d).id))
    ensures RequestsWithoutTag(ReminderRequests(ToTask(d).(id := InsertKey(tasks, ToTask(d).id)), delays),
                               TaskTag(InsertKey(tasks, ToTask(d).id))) == []
  {
    var key := InsertKey(tasks, ToTask(d).id);
    RequestsWithoutTagAllOrNone(ReminderRequests(ToTask(d).(id := key), delays), TaskTag(key));
  }
}
