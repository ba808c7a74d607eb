/**
 * The data layer of the AVerSiNoTruena2 iteration: the `tasks` table the
 * task view models write through `TasksRepository`, and the `alarms` table
 * of `AlarmDao`, whose rows refer to a task by a foreign key that deletes
 * them along with their task.
 */
module InventoryData {
  import opened Common
  import opened Tables

  /** A task, with the fields the view models of this iteration read and
      write. */
  datatype Task = Task(id: int, titulo: string, descripcion: string, fechaHoraVencimiento: string, estado: bool)

  datatype TaskColumns = TaskColumns(titulo: string, descripcion: string, fechaHoraVencimiento: string, estado: bool)

  function TaskColumnsOf(task: Task): TaskColumns {
    TaskColumns(task.titulo, task.descripcion, task.fechaHoraVencimiento, task.estado)
  }

  function TaskOf(row: Row<TaskColumns>): Task {
    Task(row.key, row.cols.titulo, row.cols.descripcion, row.cols.fechaHoraVencimiento, row.cols.estado)
  }

  /** A task and its row determine each other. */
  lemma TaskRowRoundTrip(task: Task, row: Row<TaskColumns>)
    ensures TaskOf(Row(task.id, TaskColumnsOf(task))) == task
    ensures Row(TaskOf(row).id, TaskColumnsOf(TaskOf(row))) == row
  {
  }

  /** An alarm of a task (`Alarm.kt`). */
  datatype Alarm = Alarm(id: int, taskId: int, fechaHora: string, tipo: string, estado: bool)

  datatype AlarmColumns = AlarmColumns(taskId: int, fechaHora: string, tipo: string, estado: bool)

  /** `Alarm(taskId = ..., fechaHora = ..., tipo = ...)`: the defaults are
      id 0, which asks for a generated key, and an inactive alarm. */
  function NewAlarm(taskId: int, fechaHora: string, tipo: string): Alarm {
    Alarm(0, taskId, fechaHora, tipo, false)
  }

  function AlarmColumnsOf(alarm: Alarm): AlarmColumns {
    AlarmColumns(alarm.taskId, alarm.fechaHora, alarm.tipo, alarm.estado)
  }

  function AlarmOf(row: Row<AlarmColumns>): Alarm {
    Alarm(row.key, row.cols.taskId, row.cols.fechaHora, row.cols.tipo, row.cols.estado)
  }

  lemma AlarmRowRoundTrip(alarm: Alarm, row: Row<AlarmColumns>)
    ensures AlarmOf(Row(alarm.id, AlarmColumnsOf(alarm))) == alarm
    ensures Row(AlarmOf(row).id, AlarmColumnsOf(AlarmOf(row))) == row
  {
  }

  /** The decoded rows, in key order. */
  function AlarmsOf(rows: seq<Row<AlarmColumns>>): (r: seq<Alarm>)
    ensures |r| == |rows|
    ensures forall i :: 0 <= i < |rows| ==> r[i] == AlarmOf(rows[i])
  {
    seq(|rows|, i requires 0 <= i < |rows| => AlarmOf(rows[i]))
  }

  /** The condition `taskId = :taskId`. */
  function OfTask(taskId: int): AlarmColumns -> bool {
    (c: AlarmColumns) => c.taskId == taskId
  }

  /** What `DELETE FROM alarms WHERE taskId = :taskId` keeps. */
  function NotOfTask(taskId: int): AlarmColumns -> bool {
    (c: AlarmColumns) => c.taskId != taskId
  }

  /** The foreign key: every alarm refers to a stored task. */
  ghost predicate ForeignKeysHold(tasks: Table<TaskColumns>, alarms: Table<AlarmColumns>) {
    forall i :: 0 <= i < |alarms.rows| ==> HasKey(tasks.rows, alarms.rows[i].cols.taskId)
  }

  /** How a statement that checks the foreign key ends: normally, or with
      the `SQLiteConstraintException` of a violated key. */
  datatype Outcome = Done | ForeignKeyViolation

  /** The `alarms` table after `deleteAlarmsByTaskId(taskId)`. */
  function WithoutAlarmsOf(alarms: Table<AlarmColumns>, taskId: int): Table<AlarmColumns> {
    Table(Where(alarms.rows, NotOfTask(taskId)), alarms.sequence)
  }

  /** A stored row's alarm is among the decoded alarms. */
  lemma AlarmsOfHas(rows: seq<Row<AlarmColumns>>, row: Row<AlarmColumns>)
    requires row in rows
    ensures AlarmOf(row) in AlarmsOf(rows)
  {
    var m :| 0 <= m < |rows| && rows[m] == row;
    assert AlarmsOf(rows)[m] == AlarmOf(row);
  }

  /** Each decoded alarm of a task is a stored row of that task. */
  lemma AlarmsOfTaskStored(rows: seq<Row<AlarmColumns>>, taskId: int, r: seq<Alarm>)
    requires r == AlarmsOf(Where(rows, OfTask(taskId)))
    ensures forall i :: 0 <= i < |r| ==> r[i].taskId == taskId && Row(r[i].id, AlarmColumnsOf(r[i])) in rows
  {
    var sel := Where(rows, OfTask(taskId));
    WhereElements(rows, OfTask(taskId));
    forall i | 0 <= i < |r| ensures r[i].taskId == taskId && Row(r[i].id, AlarmColumnsOf(r[i])) in rows {
      assert OfTask(taskId)(sel[i].cols);
      assert Row(r[i].id, AlarmColumnsOf(r[i])) == sel[i];
    }
  }

  /** Every stored row of a task is among its decoded alarms. */
  lemma AlarmsOfTaskComplete(rows: seq<Row<AlarmColumns>>, taskId: int, r: seq<Alarm>)
    requires r == AlarmsOf(Where(rows, OfTask(taskId)))
    ensures forall i :: 0 <= i < |rows| && rows[i].cols.taskId == taskId ==> AlarmOf(rows[i]) in r
  {
    var sel := Where(rows, OfTask(taskId));
    WhereElements(rows, OfTask(taskId));
    forall i | 0 <= i < |rows| && rows[i].cols.taskId == taskId ensures AlarmOf(rows[i]) in r {
      assert OfTask(taskId)(rows[i].cols);
      AlarmsOfHas(sel, rows[i]);
    }
  }

  /** The decoded alarms of a task from sorted rows have increasing keys. */
  lemma AlarmsOfTaskIncreasing(rows: seq<Row<AlarmColumns>>, taskId: int, r: seq<Alarm>)
    requires Sorted(rows) && r == AlarmsOf(Where(rows, OfTask(taskId)))
    ensures forall i, j :: 0 <= i < j < |r| ==> r[i].id < r[j].id
  {
    var sel := Where(rows, OfTask(taskId));
    WhereSorted(rows, OfTask(taskId));
    forall i, j | 0 <= i < j < |r| ensures r[i].id < r[j].id {
      assert r[i].id == sel[i].key && r[j].id == sel[j].key;
    }
  }

  /** The alarms of a task, decoded from sorted rows: each is a stored row
      of the task, every stored row of the task is among them, and their keys
      increase. */
  lemma AlarmsOfTask(rows: seq<Row<AlarmColumns>>, taskId: int, r: seq<Alarm>)
    requires Sorted(rows) && r == AlarmsOf(Where(rows, OfTask(taskId)))
    ensures forall i :: 0 <= i < |r| ==> r[i].taskId == taskId && Row(r[i].id, AlarmColumnsOf(r[i])) in rows
    ensures forall i :: 0 <= i < |rows| && rows[i].cols.taskId == taskId ==> AlarmOf(rows[i]) in r
    ensures forall i, j :: 0 <= i < j < |r| ==> r[i].id < r[j].id
  {
    AlarmsOfTaskStored(rows, taskId, r);
    AlarmsOfTaskComplete(rows, taskId, r);
    AlarmsOfTaskIncreasing(rows, taskId, r);
  }

  // ---------------------------------------------------------------------
  // What the statements do to the tables

  /** After `deleteAlarmsByTaskId(taskId)` the task has no alarms, every
      other task keeps exactly its alarms, an alarm keeps its row unless it
      belonged to the task, and repeating the statement changes nothing. */
  lemma DeleteAlarmsByTaskIdSpec(alarms: Table<AlarmColumns>, taskId: int, other: int, k: int)
    requires WellFormed(alarms)
    ensures WellFormed(WithoutAlarmsOf(alarms, taskId))
    ensures Where(WithoutAlarmsOf(alarms, taskId).rows, OfTask(taskId)) == []
    ensures other != taskId ==>
      Where(WithoutAlarmsOf(alarms, taskId).rows, OfTask(other)) == Where(alarms.rows, OfTask(other))
    ensures Lookup(WithoutAlarmsOf(alarms, taskId).rows, k) ==
      (if Lookup(alarms.rows, k).Some? && Lookup(alarms.rows, k).value.taskId == taskId then None
       else Lookup(alarms.rows, k))
    ensures WithoutAlarmsOf(WithoutAlarmsOf(alarms, taskId), taskId) == WithoutAlarmsOf(alarms, taskId)
  {
    var rows := Where(alarms.rows, NotOfTask(taskId));
    WhereWellFormed(alarms, NotOfTask(taskId));
    WhereElements(alarms.rows, NotOfTask(taskId));
    WhereAllOrNone(rows, OfTask(taskId));
    WhereAllOrNone(rows, NotOfTask(taskId));
    if other != taskId {
      WhereWhere(alarms.rows, NotOfTask(taskId), OfTask(other));
    }
    WhereLookup(alarms.rows, NotOfTask(taskId), k);
  }

  /** Deleting a task and, by the cascade, its alarms keeps the foreign key:
      no alarm is left referring to the deleted task. */
  lemma CascadeKeepsForeignKeys(tasks: Table<TaskColumns>, alarms: Table<AlarmColumns>, id: int)
    requires WellFormed(tasks) && ForeignKeysHold(tasks, alarms)
    ensures ForeignKeysHold(DeleteRow(tasks, id), WithoutAlarmsOf(alarms, id))
    ensures forall i :: 0 <= i < |WithoutAlarmsOf(alarms, id).rows| ==>
      WithoutAlarmsOf(alarms, id).rows[i].cols.taskId != id
  {
    var rows := WithoutAlarmsOf(alarms, id).rows;
    WhereElements(alarms.rows, NotOfTask(id));
    DeleteRowSpec(tasks, id);
    forall i | 0 <= i < |rows| ensures HasKey(DeleteRow(tasks, id).rows, rows[i].cols.taskId) {
      var m :| 0 <= m < |alarms.rows| && alarms.rows[m] == rows[i];
      assert NotOfTask(id)(rows[i].cols);
      assert Lookup(DeleteRow(tasks, id).rows, rows[i].cols.taskId).Some?;
    }
  }

  /** A stored task stays stored across an insert or an update of tasks. */
  lemma TaskWritesKeepKeys(tasks: Table<TaskColumns>, task: Task, k: int)
    requires WellFormed(tasks) && HasKey(tasks.rows, k)
    ensures HasKey(InsertOrIgnore(tasks, task.id, TaskColumnsOf(task)).rows, k)
    ensures HasKey(UpdateRow(tasks, task.id, TaskColumnsOf(task)).rows, k)
  {
    InsertOrIgnoreSpec(tasks, task.id, TaskColumnsOf(task));
    UpdateRowSpec(tasks, task.id, TaskColumnsOf(task));
    assert Lookup(tasks.rows, k).Some?;
  }

  /** A new alarm for a stored task gets a key no alarm has ever had. */
  lemma NewAlarmGetsFreshKey(alarms: Table<AlarmColumns>, taskId: int, fechaHora: string, tipo: string)
    requires WellFormed(alarms)
    ensures InsertKey(alarms, NewAlarm(taskId, fechaHora, tipo).id) > alarms.sequence
    ensures InsertOrIgnore(alarms, NewAlarm(taskId, fechaHora, tipo).id,
                           AlarmColumnsOf(NewAlarm(taskId, fechaHora, tipo))).rows
      == alarms.rows + [Row(alarms.sequence + 1, AlarmColumns(taskId, fechaHora, tipo, false))]
  {
    GeneratedKeyIsFresh(alarms, AlarmColumnsOf(NewAlarm(taskId, fechaHora, tipo)));
  }

  // ---------------------------------------------------------------------

  class InventoryDatabase {
    var tasks: Table<TaskColumns>
    var alarms: Table<AlarmColumns>

    ghost predicate Valid()
      reads this
    {
      && WellFormed(tasks)
      && WellFormed(alarms)
      && ForeignKeysHold(tasks, alarms)
    }

    constructor ()
      ensures Valid() && tasks == EmptyTable() && alarms == EmptyTable()
    {
      tasks := EmptyTable();
      alarms := EmptyTable();
    }

    // TasksRepository

    /** `insertTask(task)` (insert, conflicts ignored). */
    method InsertTask(task: Task)
      requires Valid()
      modifies this
      ensures Valid()
      ensures tasks == InsertOrIgnore(old(tasks), task.id, TaskColumnsOf(task))
      ensures alarms == old(alarms)
    {
      InsertOrIgnoreSpec(tasks, task.id, TaskColumnsOf(task));
      forall i | 0 <= i < |alarms.rows|
        ensures HasKey(InsertOrIgnore(tasks, task.id, TaskColumnsOf(task)).rows, alarms.rows[i].cols.taskId)
      {
        TaskWritesKeepKeys(tasks, task, alarms.rows[i].cols.taskId);
      }
      tasks := InsertOrIgnore(tasks, task.id, TaskColumnsOf(task));
    }

    /** `updateTask(task)`. */
    method UpdateTask(task: Task)
      requires Valid()
      modifies this
      ensures Valid()
      ensures tasks == UpdateRow(old(tasks), task.id, TaskColumnsOf(task))
      ensures alarms == old(alarms)
    {
      UpdateRowSpec(tasks, task.id, TaskColumnsOf(task));
      forall i | 0 <= i < |alarms.rows|
        ensures HasKey(UpdateRow(tasks, task.id, TaskColumnsOf(task)).rows, alarms.rows[i].cols.taskId)
      {
        TaskWritesKeepKeys(tasks, task, alarms.rows[i].cols.taskId);
      }
      tasks := UpdateRow(tasks, task.id, TaskColumnsOf(task));
    }

    /** `deleteTask(task)`: the task's row goes, and `ON DELETE CASCADE`
        takes its alarms with it. */
    method DeleteTask(task: Task)
      requires Valid()
      modifies this
      ensures Valid()
      ensures tasks == DeleteRow(old(tasks), task.id)
      ensures alarms == WithoutAlarmsOf(old(alarms), task.id)
    {
      DeleteRowSpec(tasks, task.id);
      WhereWellFormed(alarms, NotOfTask(task.id));
      CascadeKeepsForeignKeys(tasks, alarms, task.id);
      tasks := DeleteRow(tasks, task.id);
      alarms := WithoutAlarmsOf(alarms, task.id);
    }

    /** `getTaskStream(id)`: the stored task, or `null`. */
    function GetTask(id: int): (r: Option<Task>)
      reads this
      ensures r.None? <==> !HasKey(tasks.rows, id)
      ensures r.Some? ==> r.value.id == id && Row(id, TaskColumnsOf(r.value)) in tasks.rows
    {
      match Lookup(tasks.rows, id)
      case None => None
      case Some(cols) => Some(TaskOf(Row(id, cols)))
    }

    // AlarmDao

    /** `SELECT * FROM alarms WHERE taskId = :taskId`: exactly the stored
        alarms of the task, in key order. */
    function GetAlarmsByTaskId(taskId: int): (r: seq<Alarm>)
      requires Valid()
      reads this
      ensures forall i :: 0 <= i < |r| ==>
        r[i].taskId == taskId && Row(r[i].id, AlarmColumnsOf(r[i])) in alarms.rows
      ensures forall i :: 0 <= i < |alarms.rows| && alarms.rows[i].cols.taskId == taskId ==>
        AlarmOf(alarms.rows[i]) in r
      ensures forall i, j :: 0 <= i < j < |r| ==> r[i].id < r[j].id
    {
      var r := AlarmsOf(Where(alarms.rows, OfTask(taskId)));
      AlarmsOfTask(alarms.rows, taskId, r);
      r
    }

    /** `SELECT * FROM alarms WHERE id = :id`: the alarm, or `null`. */
    function GetAlarm(id: int): (r: Option<Alarm>)
      reads this
      ensures r.None? <==> !HasKey(alarms.rows, id)
      ensures r.Some? ==> r.value.id == id && Row(id, AlarmColumnsOf(r.value)) in alarms.rows
    {
      match Lookup(alarms.rows, id)
      case None => None
      case Some(cols) => Some(AlarmOf(Row(id, cols)))
    }

    /** `insert(alarm)` (conflicts ignored): an alarm whose key is taken is
        dropped; otherwise an alarm of a task that is not stored violates the
        foreign key and nothing is written. */
    method InsertAlarm(alarm: Alarm) returns (outcome: Outcome)
      requires Valid()
      modifies this
      ensures Valid() && tasks == old(tasks)
      ensures outcome == ForeignKeyViolation <==>
        !HasKey(old(alarms).rows, InsertKey(old(alarms), alarm.id)) && !HasKey(tasks.rows, alarm.taskId)
      ensures alarms == if outcome == ForeignKeyViolation then old(alarms)
                        else InsertOrIgnore(old(alarms), alarm.id, AlarmColumnsOf(alarm))
    {
      var key := InsertKey(alarms, alarm.id);
      if Lookup(alarms.rows, key).None? && Lookup(tasks.rows, alarm.taskId).None? {
        outcome := ForeignKeyViolation;
      } else {
        outcome := Done;
        var next := InsertOrIgnore(alarms, alarm.id, AlarmColumnsOf(alarm));
        InsertOrIgnoreSpec(alarms, alarm.id, AlarmColumnsOf(alarm));
        forall i | 0 <= i < |next.rows| ensures HasKey(tasks.rows, next.rows[i].cols.taskId) {
          assert next.rows[i] in multiset(next.rows);
          if next.rows[i] !in alarms.rows {
            assert next.rows[i].cols == AlarmColumnsOf(alarm);
          }
        }
        alarms := next;
      }
    }

    /** `update(alarm)`: the row with the alarm's key takes its columns, and
        a new `taskId` that refers to no stored task violates the foreign key
        and nothing is written. */
    method UpdateAlarm(alarm: Alarm) returns (outcome: Outcome)
      requires Valid()
      modifies this
      ensures Valid() && tasks == old(tasks)
      ensures outcome == ForeignKeyViolation <==>
        HasKey(old(alarms).rows, alarm.id) && !HasKey(tasks.rows, alarm.taskId)
      ensures alarms == if outcome == ForeignKeyViolation then old(alarms)
                        else UpdateRow(old(alarms), alarm.id, AlarmColumnsOf(alarm))
    {
      if Lookup(alarms.rows, alarm.id).Some? && Lookup(tasks.rows, alarm.taskId).None? {
        outcome := ForeignKeyViolation;
      } else {
        outcome := Done;
        var next := UpdateRow(alarms, alarm.id, AlarmColumnsOf(alarm));
        UpdateRowSpec(alarms, alarm.id, AlarmColumnsOf(alarm));
        forall i | 0 <= i < |next.rows| ensures HasKey(tasks.rows, next.rows[i].cols.taskId) {
          if alarms.rows[i].key == alarm.id {
            assert HasKey(alarms.rows, alarm.id);
          }
        }
        alarms := next;
      }
    }

    /** `delete(alarm)`: the row with the alarm's key goes. */
    method DeleteAlarm(alarm: Alarm)
      requires Valid()
      modifies this
      ensures Valid() && tasks == old(tasks)
      ensures alarms == DeleteRow(old(alarms), alarm.id)
    {
      DeleteRowSpec(alarms, alarm.id);
      RemoveKeyElements(alarms.rows, alarm.id);
      var next := DeleteRow(alarms, alarm.id);
      forall i | 0 <= i < |next.rows| ensures HasKey(tasks.rows, next.rows[i].cols.taskId) {
        var m :| 0 <= m < |alarms.rows| && alarms.rows[m] == next.rows[i];
      }
      alarms := next;
    }

    /** `deleteAlarmsByTaskId(taskId)`. */
    method DeleteAlarmsByTaskId(taskId: int)
      requires Valid()
      modifies this
      ensures Valid() && tasks == old(tasks)
      ensures alarms == WithoutAlarmsOf(old(alarms), taskId)
    {
      WhereWellFormed(alarms, NotOfTask(taskId));
      WhereElements(alarms.rows, NotOfTask(taskId));
      var next := WithoutAlarmsOf(alarms, taskId);
      forall i | 0 <= i < |next.rows| ensures HasKey(tasks.rows, next.rows[i].cols.taskId) {
        var m :| 0 <= m < |alarms.rows| && alarms.rows[m] == next.rows[i];
      }
      alarms := next;
    }
  }
}
