# Inventory app: task reminders, forms and tables, in Dafny

This project models the logic core of an Android "Inventory" app. The app
keeps tasks (a title, a description, a due date, a completion flag), alarms
that belong to tasks, and items (notes and tasks with a classification and
an optional completion time). Two iterations of the app are modelled side
by side, AVerSiNoTruena and AVerSiNoTruena2, plus the Room-generated item
DAO of the ProyectoInsano iteration.

- **Reminders (AVerSiNoTruena2).**
  - Saving a task schedules one reminder per lead time that fits before the
    due date. The lead times are 5 minutes, 30 minutes, 1 hour, 12 hours
    and 24 hours.
  - Editing a task schedules a single reminder at the due time.
  - Each reminder is a WorkManager request tagged `task_<id>`. Saving and
    editing cancel the task's earlier reminders by that tag.
- **Forms and conversions (both iterations).**
  - Each screen validates its form (non-blank fields, and for editing a due
    date). `updateUiState` stores the form together with its validity.
  - A screen writes to the repository only for a valid form.
  - The form and the stored record convert both ways.
  - The details screen completes and deletes the shown task.
- **Tables.**
  - Each Room table is a list of rows in primary-key order, plus the
    AUTOINCREMENT sequence.
  - Inserts are `INSERT OR IGNORE` with `nullif(id, 0)`: id 0 means a
    generated key.
  - Updates and deletes go by key. Queries filter, and `getItemClassi`
    sorts with NULL first.
  - Alarms have a foreign key to tasks with `ON DELETE CASCADE`.

The modules follow the source files:

| module | file | models |
|---|---|---|
| `Common` | common.dfy | Kotlin `Long` wrap-around, `isBlank`, decimal rendering of an `Int` |
| `Tables` | tables.dfy | a Room table and its statements; a repository that only delegates to its DAO |
| `Work` | work.dfy | the WorkManager queue: enqueue, cancel by tag, cancel by id, look up by tag |
| `ItemDaoImpl` | item_dao.dfy | `ItemDao_Impl.java` (ProyectoInsano) and its instrumented test |
| `InventoryData` | inventory_data.dfy | the tasks and alarms tables, `AlarmDao.kt` and the cascade in `Alarm.kt` (AVerSiNoTruena2) |
| `TaskEntry2`, `TaskEdit2`, `TaskDetails2`, `ItemEntry2` | task_entry2.dfy, task_edit2.dfy, task_details2.dfy, item_entry2.dfy | the AVerSiNoTruena2 view models |
| `TaskEntry1`, `TaskEdit1` | task_entry1.dfy, task_edit1.dfy | the AVerSiNoTruena view models |

Each view model is a class whose fields mirror the source's:
- the UI state it reassigns;
- the repository, as a class over tables;
- the WorkManager, as a class over a queue of jobs.

Each method's `ensures` gives the new state as a function of the old one.
Lemmas then state what those functions mean.

Three things are inputs rather than computed:
- the clock is a parameter `now: Long`;
- the date parser (`SimpleDateFormat("yyyy-MM-dd HH:mm")`) is a function
  parameter `parse: string -> Option<Long>`, where `None` stands for a
  `null` result and for a thrown `ParseException` alike;
- the interleaving of the edit screen's background cancellation with its
  enqueues is a parameter.

## Model

| member | source | states |
|---|---|---|
| Common.Wrap64 | AVerSiNoTruena2/app/src/main/java/com/example/inventory/ui/task/TaskEntryViewModel.kt:82 | Kotlin `Long` subtraction: the result is in the 64-bit range, congruent to the exact difference, and equal to it when that fits |
| Common.BlankIffTrimsToEmpty | AVerSiNoTruena2/app/src/main/java/com/example/inventory/ui/task/TaskEntryViewModel.kt:47 | `isBlank` holds exactly when nothing is left after trimming leading whitespace |
| Work.TaskTagInjective | AVerSiNoTruena2/app/src/main/java/com/example/inventory/ui/task/TaskEntryViewModel.kt:69 | two tasks with different ids never share a `task_<id>` tag |
| Work.WorkManager.Enqueue | AVerSiNoTruena2/app/src/main/java/com/example/inventory/ui/task/TaskEntryViewModel.kt:72 | the request joins the end of the queue under an id that no queued job has |
| Work.WorkManager.CancelAllWorkByTag | AVerSiNoTruena2/app/src/main/java/com/example/inventory/ui/task/TaskEntryViewModel.kt:53 | the queue loses exactly the jobs with the tag, in order, and ids stay unique |
| Work.WithoutTagClears | AVerSiNoTruena2/app/src/main/java/com/example/inventory/ui/task/TaskEntryViewModel.kt:53 | after cancelling a tag, no queued job carries it |
| Work.WithoutTagKeepsOthers | AVerSiNoTruena2/app/src/main/java/com/example/inventory/ui/task/TaskEntryViewModel.kt:53 | cancelling a tag leaves the jobs of every other tag exactly as they were |
| Work.WithoutTagSplits | AVerSiNoTruena2/app/src/main/java/com/example/inventory/ui/task/TaskEntryViewModel.kt:53 | what is cancelled and what is kept together make up the old queue: nothing is lost or invented |
| Work.WorkManager.GetWorkInfosByTag | AVerSiNoTruena2/app/src/main/java/com/example/inventory/ui/task/TaskEditViewModel.kt:115 | every queued job with the tag and no other, each once and in the order it was enqueued (ids increase along the queue) |
| Work.WorkManager.CancelWorkById | AVerSiNoTruena2/app/src/main/java/com/example/inventory/ui/task/TaskEditViewModel.kt:135 | the queue loses the job with that id and nothing else |
| Work.RemoveTaggedIds | AVerSiNoTruena2/app/src/main/java/com/example/inventory/ui/task/TaskEditViewModel.kt:128-136 | with unique ids, cancelling every looked-up job by id is the same as cancelling by tag |
| Tables.Lookup | AVerSiNoTruena2/app/src/main/java/com/example/inventory/data/AlarmDao.kt:12 | a `WHERE id = ?` query finds a row exactly when the key is stored, and the row it finds is stored |
| Tables.InsertOrIgnoreSpec | ProyectoInsano/app/build/kspCaches/debug/backups/java/byRounds/1/com/example/inventory/data/ItemDao_Impl.java:46 | `INSERT OR IGNORE`: a taken key leaves the table unchanged; otherwise only that key gains the row, the rows gain exactly that one, and the table stays sorted and bounded by the sequence |
| Tables.GeneratedKeyIsFresh | ProyectoInsano/app/build/kspCaches/debug/backups/java/byRounds/1/com/example/inventory/data/ItemDao_Impl.java:46 | `nullif(id, 0)` with id 0 gives a key above every key ever used, so keys are never reused; the row is never ignored and goes last |
| Tables.UpdateRowSpec | ProyectoInsano/app/build/kspCaches/debug/backups/java/byRounds/1/com/example/inventory/data/ItemDao_Impl.java:82 | `UPDATE ... WHERE id = ?` replaces the columns of that key only; with no such key it is a no-op |
| Tables.UpdateRowIdempotent | ProyectoInsano/app/build/kspCaches/debug/backups/java/byRounds/1/com/example/inventory/data/ItemDao_Impl.java:82 | the same update twice is the update once |
| Tables.DeleteRowSpec | ProyectoInsano/app/build/kspCaches/debug/backups/java/byRounds/1/com/example/inventory/data/ItemDao_Impl.java:69 | `DELETE ... WHERE id = ?` removes that key only; an absent key is a no-op; the sequence is kept |
| Tables.WhereElements | AVerSiNoTruena2/app/src/main/java/com/example/inventory/data/AlarmDao.kt:9 | a `WHERE` filter returns stored rows that satisfy the condition, and every stored row that does |
| Tables.Repository.Insert | AVerSiNoTruena/app/src/main/java/com/example/inventory/data/OfflineTasksRepository.kt:18 | delegating `insertTask` is insert-or-ignore on the table |
| Tables.Repository.Update | AVerSiNoTruena/app/src/main/java/com/example/inventory/data/OfflineTasksRepository.kt:20 | delegating `updateTask` is the update by key |
| Tables.Repository.Delete | AVerSiNoTruena/app/src/main/java/com/example/inventory/data/OfflineTasksRepository.kt:22 | delegating `deleteTask` is the delete by key |
| Tables.Repository.Get | AVerSiNoTruena/app/src/main/java/com/example/inventory/data/OfflineTasksRepository.kt:8 | `getTaskStream(id)` finds a row exactly when the key is stored |
| ItemDaoImpl.ItemRoundTrip | ProyectoInsano/app/build/kspCaches/debug/backups/java/byRounds/1/com/example/inventory/data/ItemDao_Impl.java:50-63 | binding an item and reading the row back gives the same item; `estado` is stored as 0 or 1 |
| ItemDaoImpl.RowRoundTrip | ProyectoInsano/app/build/kspCaches/debug/backups/java/byRounds/1/com/example/inventory/data/ItemDao_Impl.java:186-194 | reading a stored row (NULL as null, `estado != 0`) and binding it again gives the same columns |
| ItemDaoImpl.ItemDao.Insert | ProyectoInsano/app/build/kspCaches/debug/backups/java/byRounds/1/com/example/inventory/data/ItemDao_Impl.java:46-63 | the table becomes the insert-or-ignore of the bound item |
| ItemDaoImpl.ItemDao.Delete | ProyectoInsano/app/build/kspCaches/debug/backups/java/byRounds/1/com/example/inventory/data/ItemDao_Impl.java:69-75 | the table becomes the delete of the item's id |
| ItemDaoImpl.ItemDao.Update | ProyectoInsano/app/build/kspCaches/debug/backups/java/byRounds/1/com/example/inventory/data/ItemDao_Impl.java:82-99 | the table becomes the update of the item's id with its bound columns |
| ItemDaoImpl.ItemDao.GetAllItems | ProyectoInsano/app/build/kspCaches/debug/backups/java/byRounds/1/com/example/inventory/data/ItemDao_Impl.java:159-209 | the cursor loop returns every stored row, decoded, in key order |
| ItemDaoImpl.ItemById | ProyectoInsano/app/build/kspCaches/debug/backups/java/byRounds/1/com/example/inventory/data/ItemDao_Impl.java:212-264 | `getItem(id)` is null exactly when no row has the key; otherwise it is the decoded row with that key |
| ItemDaoImpl.ItemDao.GetItem | ProyectoInsano/app/build/kspCaches/debug/backups/java/byRounds/1/com/example/inventory/data/ItemDao_Impl.java:230-252 | `moveToFirst` of the id query: the item with that key, or null when there is none |
| ItemDaoImpl.OfClassMembers | ProyectoInsano/app/build/kspCaches/debug/backups/java/byRounds/1/com/example/inventory/data/ItemDao_Impl.java:268 | an item is in the class filter exactly when some stored row of that class reads as it |
| ItemDaoImpl.InsertByHoraSorted | ProyectoInsano/app/build/kspCaches/debug/backups/java/byRounds/1/com/example/inventory/data/ItemDao_Impl.java:268 | placing an item into a list ordered by `horaCumplimiento` (NULL first) keeps it ordered |
| ItemDaoImpl.InsertByHoraElements | ProyectoInsano/app/build/kspCaches/debug/backups/java/byRounds/1/com/example/inventory/data/ItemDao_Impl.java:268 | that placement adds the item and loses nothing |
| ItemDaoImpl.ItemDao.GetItemClassi | ProyectoInsano/app/build/kspCaches/debug/backups/java/byRounds/1/com/example/inventory/data/ItemDao_Impl.java:267-319 | the result is ordered by `horaCumplimiento` with NULL first, and it is a permutation of the stored rows of class `c` |
| ItemDaoImpl.InsertThenGetAll | AVerSiNoTruena/app/src/androidTest/java/com/example/inventory/ItemDaoTest.kt:47-51 | one item inserted into an empty table is read back alone and unchanged |
| ItemDaoImpl.InsertTwoThenGetAll | AVerSiNoTruena/app/src/androidTest/java/com/example/inventory/ItemDaoTest.kt:55-60 | two inserted items are read back unchanged, in key order |
| ItemDaoImpl.InsertThenGetItem | AVerSiNoTruena/app/src/androidTest/java/com/example/inventory/ItemDaoTest.kt:64-68 | an item inserted under a new id is found by that id, unchanged |
| ItemDaoImpl.DeleteBothThenEmpty | AVerSiNoTruena/app/src/androidTest/java/com/example/inventory/ItemDaoTest.kt:71-78 | deleting both inserted items leaves the table empty |
| ItemDaoImpl.UpdateBothThenGetAll | AVerSiNoTruena/app/src/androidTest/java/com/example/inventory/ItemDaoTest.kt:81-90 | updating both inserted items gives back the updated copies, in key order |
| InventoryData.AlarmRowRoundTrip | AVerSiNoTruena2/app/src/main/java/com/example/inventory/data/Alarm.kt:15-22 | an alarm and its row convert both ways without loss |
| InventoryData.NewAlarmGetsFreshKey | AVerSiNoTruena2/app/src/main/java/com/example/inventory/data/Alarm.kt:15-22 | a new alarm (id 0, `estado` false) is stored last, under the key after the sequence, as inactive |
| InventoryData.InventoryDatabase.GetAlarmsByTaskId | AVerSiNoTruena2/app/src/main/java/com/example/inventory/data/AlarmDao.kt:9-10 | every returned alarm is stored and belongs to the task, every stored alarm of the task is returned, and the result is in strictly increasing key order, so each alarm appears once |
| InventoryData.InventoryDatabase.GetAlarm | AVerSiNoTruena2/app/src/main/java/com/example/inventory/data/AlarmDao.kt:12-13 | the alarm with that id, or null exactly when there is none |
| InventoryData.InventoryDatabase.InsertAlarm | AVerSiNoTruena2/app/src/main/java/com/example/inventory/data/AlarmDao.kt:15-16 | a taken key leaves the table unchanged; a new alarm of a task that is not stored fails on the foreign key and writes nothing; otherwise it is inserted |
| InventoryData.InventoryDatabase.UpdateAlarm | AVerSiNoTruena2/app/src/main/java/com/example/inventory/data/AlarmDao.kt:18-19 | the row with the alarm's key takes its columns; moving it to a task that is not stored fails on the foreign key and writes nothing |
| InventoryData.InventoryDatabase.DeleteAlarm | AVerSiNoTruena2/app/src/main/java/com/example/inventory/data/AlarmDao.kt:21-22 | only the row with the alarm's key goes; tasks are unchanged |
| InventoryData.InventoryDatabase.DeleteAlarmsByTaskId | AVerSiNoTruena2/app/src/main/java/com/example/inventory/data/AlarmDao.kt:24-25 | the alarms table becomes its rows of other tasks; tasks are unchanged |
| InventoryData.DeleteAlarmsByTaskIdSpec | AVerSiNoTruena2/app/src/main/java/com/example/inventory/data/AlarmDao.kt:24-25 | afterwards the task has no alarms; every other task keeps exactly its alarms; each key keeps its row unless that alarm belonged to the task; repeating the delete changes nothing |
| InventoryData.CascadeKeepsForeignKeys | AVerSiNoTruena2/app/src/main/java/com/example/inventory/data/Alarm.kt:6-13 | deleting a task together with its alarms keeps every remaining alarm pointing at a stored task, and none at the deleted one |
| InventoryData.TaskWritesKeepKeys | AVerSiNoTruena2/app/src/main/java/com/example/inventory/data/Alarm.kt:6-13 | inserting or updating a task never removes a stored task, so no alarm loses the task it refers to |
| InventoryData.InventoryDatabase.DeleteTask | AVerSiNoTruena2/app/src/main/java/com/example/inventory/data/Alarm.kt:6-13 | the task's row goes, and by `ON DELETE CASCADE` so do its alarms |
| InventoryData.InventoryDatabase.InsertTask | AVerSiNoTruena2/app/src/main/java/com/example/inventory/ui/task/TaskEntryViewModel.kt:39 | `insertTask` is insert-or-ignore on tasks; alarms are unchanged |
| InventoryData.InventoryDatabase.UpdateTask | AVerSiNoTruena2/app/src/main/java/com/example/inventory/ui/task/TaskEditViewModel.kt:101 | `updateTask` is the update by key on tasks; alarms are unchanged |
| InventoryData.InventoryDatabase.GetTask | AVerSiNoTruena2/app/src/main/java/com/example/inventory/ui/task/TaskEditViewModel.kt:80 | `getTaskStream(id)` gives the task stored under the id, or null exactly when there is none |
| TaskEntry2.ValidateInputSpec | AVerSiNoTruena2/app/src/main/java/com/example/inventory/ui/task/TaskEntryViewModel.kt:45-49 | the form is valid exactly when title and description are non-blank; the id, due date and flag do not matter; the default form is invalid |
| TaskEntry2.TaskRoundTrips | AVerSiNoTruena2/app/src/main/java/com/example/inventory/ui/task/TaskEntryViewModel.kt:108-128 | a task survives the form unchanged; a form survives a task exactly when it has a due date, and a missing one comes back as `""` |
| TaskEntry2.TaskEntryViewModel.constructor | AVerSiNoTruena2/app/src/main/java/com/example/inventory/ui/task/TaskEntryViewModel.kt:21 | the screen starts from the default, invalid form |
| TaskEntry2.TaskEntryViewModel.UpdateUiState | AVerSiNoTruena2/app/src/main/java/com/example/inventory/ui/task/TaskEntryViewModel.kt:24-29 | the details are stored unchanged, with their validity as the flag |
| TaskEntry2.ReminderDelaysExact | AVerSiNoTruena2/app/src/main/java/com/example/inventory/ui/task/TaskEntryViewModel.kt:82-86 | with d = due − now, the delays are exactly d − lead for each lead time below d, in lead-time order; at most five; none when d ≤ 5 minutes |
| TaskEntry2.ReminderDelaysBounds | AVerSiNoTruena2/app/src/main/java/com/example/inventory/ui/task/TaskEntryViewModel.kt:82-86 | every delay is positive and below d, and the delays strictly decrease |
| TaskEntry2.DelaysBeforePrefix | AVerSiNoTruena2/app/src/main/java/com/example/inventory/ui/task/TaskEntryViewModel.kt:82-86 | for increasing lead times, the ones used form a prefix: when a longer lead time is used, every shorter one is too |
| TaskEntry2.DelaysBeforeLeadTimes | AVerSiNoTruena2/app/src/main/java/com/example/inventory/ui/task/TaskEntryViewModel.kt:82-86 | the delays before the list of lead times are the five checks, in order, each adding d − lead when the lead time is shorter than d |
| TaskEntry2.CalculateAlarmTimes | AVerSiNoTruena2/app/src/main/java/com/example/inventory/ui/task/TaskEntryViewModel.kt:76-91 | the five appends compute exactly `AlarmTimes`: the delays above, or none for a null or unparseable due date |
| TaskEntry2.NoDueDateNoReminders | AVerSiNoTruena2/app/src/main/java/com/example/inventory/ui/task/TaskEntryViewModel.kt:80 | a null due date or a failed parse yields no delay |
| TaskEntry2.NoDueDateFormNoReminders | AVerSiNoTruena2/app/src/main/java/com/example/inventory/ui/task/TaskEntryViewModel.kt:108-114 | a form without a due date is saved with `""`, and when the parser rejects `""` the task gets no reminders |
| TaskEntry2.ReminderRequestsTagged | AVerSiNoTruena2/app/src/main/java/com/example/inventory/ui/task/TaskEntryViewModel.kt:69 | every request carries the task's tag and no other task's |
| TaskEntry2.EnqueueReminders | AVerSiNoTruena2/app/src/main/java/com/example/inventory/ui/task/TaskEntryViewModel.kt:60-73 | the `forEach` loop appends exactly those requests after the queued work, which stays as it was |
| TaskEntry2.TaskEntryViewModel.CancelAlarmsForTask | AVerSiNoTruena2/app/src/main/java/com/example/inventory/ui/task/TaskEntryViewModel.kt:51-54 | the queue loses exactly the work tagged `task_<taskId>` |
| TaskEntry2.TaskEntryViewModel.ScheduleAlarmsForTask | AVerSiNoTruena2/app/src/main/java/com/example/inventory/ui/task/TaskEntryViewModel.kt:56-74 | the queue gains, at its end, one reminder per computed delay |
| TaskEntry2.TaskEntryViewModel.SaveTask | AVerSiNoTruena2/app/src/main/java/com/example/inventory/ui/task/TaskEntryViewModel.kt:31-43 | invalid form: nothing changes. Valid form: the task's tag is cancelled (only for id ≠ 0), the task is inserted, and its reminders, tagged with the form's id, are queued; alarms are unchanged |
| TaskEntry2.NewTaskRemindersMissTheirKey | AVerSiNoTruena2/app/src/main/java/com/example/inventory/ui/task/TaskEntryViewModel.kt:69 | as written, a new task's reminders are all tagged `task_0` while its key is at least 1, so cancelling its key's tag cancels none of them |
| TaskEntry2.TaskEntryViewModel.SaveTaskTaggedWithKey | AVerSiNoTruena2/app/src/main/java/com/example/inventory/ui/task/TaskEntryViewModel.kt:31-43 | corrected `saveTask`: the same, but the reminders carry the tag of the key the task is stored under |
| TaskEntry2.KeyTaggedRemindersFollowTheirKey | AVerSiNoTruena2/app/src/main/java/com/example/inventory/ui/task/TaskEntryViewModel.kt:69 | corrected, every reminder carries its key's tag, and cancelling that tag cancels all of them |
| TaskEdit2.EditValidIsEntryValidWithDueDate | AVerSiNoTruena2/app/src/main/java/com/example/inventory/ui/task/TaskEditViewModel.kt:209-214 | valid for editing exactly when valid for entry and the due date is present |
| TaskEdit2.CalculateAlarmTimes | AVerSiNoTruena2/app/src/main/java/com/example/inventory/ui/task/TaskEditViewModel.kt:175-195 | computes exactly `AlarmTimes`: none for a null or blank due date or a failed parse; one delay when the due time is after now, else none |
| TaskEdit2.AlarmTimesSpec | AVerSiNoTruena2/app/src/main/java/com/example/inventory/ui/task/TaskEditViewModel.kt:176-193 | at most one delay; exactly one when the due date is non-blank and parses to a time after now; that delay is then due − now and positive |
| TaskEdit2.RemindersUnderTheirTag | AVerSiNoTruena2/app/src/main/java/com/example/inventory/ui/task/TaskEditViewModel.kt:168 | cancelling a task's tag removes all its reminders; cancelling another task's tag removes none |
| TaskEdit2.TaskEditViewModel.constructor | AVerSiNoTruena2/app/src/main/java/com/example/inventory/ui/task/TaskEditViewModel.kt:78-85 | `init` fills the form from the stored task, flagged valid without validating; with no stored task the form stays default |
| TaskEdit2.TaskEditViewModel.UpdateUiState | AVerSiNoTruena2/app/src/main/java/com/example/inventory/ui/task/TaskEditViewModel.kt:202-207 | the details are stored unchanged, with their validity for editing as the flag |
| TaskEdit2.TaskEditViewModel.CancelAlarmsForTask | AVerSiNoTruena2/app/src/main/java/com/example/inventory/ui/task/TaskEditViewModel.kt:108-144 | looking up the tag and cancelling each result by id removes exactly the work with that tag |
| TaskEdit2.TaskEditViewModel.CancelEach | AVerSiNoTruena2/app/src/main/java/com/example/inventory/ui/task/TaskEditViewModel.kt:128-137 | cancelling each listed job by id leaves the queue without exactly the listed ids, the queue invariant kept |
| TaskEdit2.TaskEditViewModel.ScheduleAlarmsForTask | AVerSiNoTruena2/app/src/main/java/com/example/inventory/ui/task/TaskEditViewModel.kt:154-173 | the queue gains, at its end, one reminder per computed delay |
| TaskEdit2.TaskEditViewModel.UpdateTask | AVerSiNoTruena2/app/src/main/java/com/example/inventory/ui/task/TaskEditViewModel.kt:90-106 | invalid form: nothing changes. Valid form: the task's row is updated, and the queue keeps its work not tagged with `taskId`, then the new reminders that the cancellation missed |
| TaskEdit2.TaskEditViewModel.SaveUpdatedTask | AVerSiNoTruena2/app/src/main/java/com/example/inventory/ui/task/TaskEditViewModel.kt:92-104 | the task's row is rewritten, the alarms table is untouched, and the queue keeps its work not tagged with `taskId`, then the new reminders that the cancellation missed |
| TaskEdit2.UpdateQueueByTag | AVerSiNoTruena2/app/src/main/java/com/example/inventory/ui/task/TaskEditViewModel.kt:90-106 | in the queue the update leaves, the task's tag holds exactly the new reminders the lookup missed (all of them when the lookup runs first), and every other tag holds exactly the requests it held before |
| TaskEdit2.UpdateAfterEnqueueLosesReminders | AVerSiNoTruena2/app/src/main/java/com/example/inventory/ui/task/TaskEditViewModel.kt:90-106 | when the lookup runs after k new reminders of the same task are queued, those k are cancelled too |
| TaskDetails2.InfoRoundTrips | AVerSiNoTruena2/app/src/main/java/com/example/inventory/ui/task/TaskDetailsViewModel.kt:69-83 | a task survives the shown fields unchanged; the fields survive a task exactly when the due date is present, and a missing one comes back as `""` |
| TaskDetails2.UiStateOf | AVerSiNoTruena2/app/src/main/java/com/example/inventory/ui/task/TaskDetailsViewModel.kt:25-29 | the shown state mirrors the stored task: `isCompleted` is its `estado`, and the details give back the task |
| TaskDetails2.Collected | AVerSiNoTruena2/app/src/main/java/com/example/inventory/ui/task/TaskDetailsViewModel.kt:23-29 | `filterNotNull`: a missing row keeps the previous state; a stored one is mirrored |
| TaskDetails2.TaskDetailsViewModel.constructor | AVerSiNoTruena2/app/src/main/java/com/example/inventory/ui/task/TaskDetailsViewModel.kt:30-34 | the state starts not completed, with default details |
| TaskDetails2.TaskDetailsViewModel.Refresh | AVerSiNoTruena2/app/src/main/java/com/example/inventory/ui/task/TaskDetailsViewModel.kt:22-29 | the state becomes the mirror of the stored task, or stays when none is stored |
| TaskDetails2.CompletedTask | AVerSiNoTruena2/app/src/main/java/com/example/inventory/ui/task/TaskDetailsViewModel.kt:38-41 | nothing is written exactly when the shown task is completed; otherwise the shown task with `estado` set and every other field unchanged |
| TaskDetails2.TaskDetailsViewModel.CompleteTask | AVerSiNoTruena2/app/src/main/java/com/example/inventory/ui/task/TaskDetailsViewModel.kt:36-43 | tasks become `Complete` of the shown details; alarms are unchanged |
| TaskDetails2.CompleteSpec | AVerSiNoTruena2/app/src/main/java/com/example/inventory/ui/task/TaskDetailsViewModel.kt:36-43 | completing keeps the table well formed and rewrites only the shown task's row, as the same task with `estado` set; a completed task is not written |
| TaskDetails2.CompleteIdempotent | AVerSiNoTruena2/app/src/main/java/com/example/inventory/ui/task/TaskDetailsViewModel.kt:39 | completing twice equals completing once; once the completed row is shown, completing again writes nothing |
| TaskDetails2.TaskDetailsViewModel.DeleteTask | AVerSiNoTruena2/app/src/main/java/com/example/inventory/ui/task/TaskDetailsViewModel.kt:45-49 | the shown task's row goes, and its alarms by the cascade |
| ItemEntry2.ValidateInputSpec | AVerSiNoTruena2/app/src/main/java/com/example/inventory/ui/item/ItemEntryViewModel.kt:61-65 | valid exactly when title, description and classification are non-blank, whatever the other six fields hold; the default form is invalid |
| ItemEntry2.ItemRoundTrips | AVerSiNoTruena2/app/src/main/java/com/example/inventory/ui/item/ItemEntryViewModel.kt:80-124 | all nine fields are copied, so each conversion undoes the other; `toItemUiState` keeps the details and its default flag is false |
| ItemEntry2.ItemEntryViewModel.constructor | AVerSiNoTruena2/app/src/main/java/com/example/inventory/ui/item/ItemEntryViewModel.kt:35 | the screen starts from the default, invalid state |
| ItemEntry2.ItemEntryViewModel.UpdateUiState | AVerSiNoTruena2/app/src/main/java/com/example/inventory/ui/item/ItemEntryViewModel.kt:42-47 | the details are stored unchanged, with their validity as the flag |
| ItemEntry2.ItemEntryViewModel.SaveItem | AVerSiNoTruena2/app/src/main/java/com/example/inventory/ui/item/ItemEntryViewModel.kt:52-56 | a valid form inserts exactly `toItem(details)`; an invalid one changes nothing |
| ItemEntry2.SaveNewItemSpec | AVerSiNoTruena2/app/src/main/java/com/example/inventory/ui/item/ItemEntryViewModel.kt:52-56 | a valid new form is stored under a fresh key and reads back as its item under that key; other rows stay |
| TaskEntry1.ValidateInputSpec | AVerSiNoTruena/app/src/main/java/com/example/inventory/ui/task/TaskEntryViewModel.kt:29-33 | valid exactly when title and description are non-blank; the default form is invalid |
| TaskEntry1.ToTask | AVerSiNoTruena/app/src/main/java/com/example/inventory/ui/task/TaskEntryViewModel.kt:51-57 | the four columns the form lacks (completion time, three media URIs) come out null |
| TaskEntry1.TaskRoundTrips | AVerSiNoTruena/app/src/main/java/com/example/inventory/ui/task/TaskEntryViewModel.kt:51-71 | a form survives a task exactly when it has a due date; a task survives the form exactly when its four extra columns are null, and otherwise comes back with them cleared |
| TaskEntry1.TaskRowRoundTrip | AVerSiNoTruena/app/src/main/java/com/example/inventory/data/Task.kt:9-24 | a task and its row convert both ways without loss |
| TaskEntry1.TaskEntryViewModel.constructor | AVerSiNoTruena/app/src/main/java/com/example/inventory/ui/task/TaskEntryViewModel.kt:13 | the screen starts from the default, invalid form |
| TaskEntry1.TaskEntryViewModel.UpdateUiState | AVerSiNoTruena/app/src/main/java/com/example/inventory/ui/task/TaskEntryViewModel.kt:16-21 | the details are stored unchanged, with their validity as the flag |
| TaskEntry1.TaskEntryViewModel.SaveTask | AVerSiNoTruena/app/src/main/java/com/example/inventory/ui/task/TaskEntryViewModel.kt:23-27 | a valid form inserts `toTask(details)`; an invalid one changes nothing |
| TaskEntry1.SaveNewTaskReadsBack | AVerSiNoTruena/app/src/main/java/com/example/inventory/ui/task/TaskEntryViewModel.kt:23-27 | a valid new form with a due date is stored under a fresh key and reads back as the same form under that key; other rows stay |
| TaskEdit1.EditValidIsEntryValidWithDueDate | AVerSiNoTruena/app/src/main/java/com/example/inventory/ui/task/TaskEditViewModel.kt:59-65 | valid for editing exactly when valid for entry and the due date is present; the `estado` test never matters |
| TaskEdit1.LoadedFormHasDueDate | AVerSiNoTruena/app/src/main/java/com/example/inventory/ui/task/TaskEntryViewModel.kt:65-71 | a form filled from a stored task has a due date, so the two checks agree on it |
| TaskEdit1.TaskEditViewModel.constructor | AVerSiNoTruena/app/src/main/java/com/example/inventory/ui/task/TaskEditViewModel.kt:30-37 | `init` fills the form from the stored task, flagged valid without validating; with no stored task the form stays default |
| TaskEdit1.LoadSkipsValidation | AVerSiNoTruena/app/src/main/java/com/example/inventory/ui/task/TaskEditViewModel.kt:30-37 | a stored task with a blank title is loaded as valid, though validation would reject it |
| TaskEdit1.TaskEditViewModel.UpdateUiState | AVerSiNoTruena/app/src/main/java/com/example/inventory/ui/task/TaskEditViewModel.kt:52-57 | the details are stored unchanged, with their validity for editing as the flag |
| TaskEdit1.TaskEditViewModel.UpdateTask | AVerSiNoTruena/app/src/main/java/com/example/inventory/ui/task/TaskEditViewModel.kt:42-46 | a valid form updates the row of its id with `toTask(details)`; an invalid one changes nothing |
| TaskEdit1.UnchangedEditClearsExtras | AVerSiNoTruena/app/src/main/java/com/example/inventory/ui/task/TaskEditViewModel.kt:42-46 | loading a task and saving it unedited rewrites its row with the four extra columns cleared; the row is unchanged exactly when they were null; other rows stay |

## Left out

- The Compose screens, navigation, permissions, logging and notification delivery (`NotificationWorker`) have no state these view models depend on.
- The date parser and the clock are inputs: `SimpleDateFormat`'s leniency, locale and time zone are not modelled.
- WorkManager's persistence, firing, constraints and `ListenableFuture` plumbing are not modelled. Request UUIDs are natural numbers handed out in order.
- Exceptions are not modelled: those caught in the edit screen's background cancellation coroutine, and the possibility that it never runs. The interleaving is modelled only at the granularity of the tag lookup against the enqueues.
- `viewModelScope.launch` and the `StateFlow` streaming are not modelled. The edit screens' `init` is taken to complete before the first edit, and the details screen's flow is the explicit `Refresh` step.
- Room's cursor iteration, transactions, statement caching and threading are not modelled.
- `SQLITE_FULL` and AUTOINCREMENT overflow past the largest key are not modelled.
- Tables.InsertKey: keys are unbounded integers, so the truncation of a key to a 32-bit `Int` when it is read back is not modelled.
- ItemDaoImpl.ItemDao.GetItemClassi: SQLite does not define the order of rows with equal `horaCumplimiento`, so the ensures states the order and the multiset, not one fixed sequence.
- The AVerSiNoTruena `TaskDao.kt` is not part of this model. Its repository is taken to delegate to a DAO with `@Insert(onConflict = OnConflictStrategy.IGNORE)`, `@Update` and `@Delete`, as ProyectoFinal/app/src/main/java/com/example/inventory/data/TaskDao.kt:18-25 declares.
- The AVerSiNoTruena2 `Task.kt`, `TaskDao.kt`, `TasksRepository.kt`, `ItemDao.kt`, `ItemsRepository.kt` and `Item.kt` are not part of this model. This iteration's task is the five fields its converters copy; its item is the nine fields `toItem` copies, with `clasificacion` a non-null `String` as `toItemDetails` requires. Its repositories are taken to delegate to Room DAOs with the same statements as the sibling iterations' (insert-or-ignore, update and delete by key).
- Foreign keys are taken to be enforced, as Room enables them for an entity that declares one. A violation aborts the statement and writes nothing; the thrown exception itself is not modelled.

## Findings

| source | as written | input that shows it | evidently intended | confidence | as-written member | corrected member |
|---|---|---|---|---|---|---|
| AVerSiNoTruena2/app/src/main/java/com/example/inventory/ui/task/TaskEntryViewModel.kt:69 | `saveTask` tags each reminder `task_${task.id}` with the form's id, which is 0 for a new task, while Room stores the task under a generated key ≥ 1 | a new task (id 0) due two hours from now gets three reminders tagged `task_0`; it is stored under key 1, so editing it later cancels `task_1` and the three stay queued; every new task shares the tag `task_0` | reminders tagged with the key the task is stored under (the comment calls the tag unique per task) | medium; not executed | TaskEntry2.NewTaskRemindersMissTheirKey | TaskEntry2.KeyTaggedRemindersFollowTheirKey |
