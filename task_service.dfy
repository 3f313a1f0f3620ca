/**
 * TaskService: creating, merging, deleting and partially updating task rows, and the two
 * status predicates. "Now" is a parameter; ids come from the database's identity column.
 */
module TaskService {
  import opened Wrappers
  import opened Text
  import opened Entities
  import opened Store
  import opened Checks

  /**
   * validateTask: the name rule, the description rule (only for a present description, so it
   * never throws here), the due-date rule, the status and priority rules (only for present
   * values, so they never throw), and finally "the task must belong to a category".
   */
  function CheckTask(task: TaskData, now: int): (r: Outcome<Failure>)
    ensures r.Pass? <==>
              task.name.Some? && !AllSpace(task.name.value) &&
              (task.dueDate.None? || task.dueDate.value >= now) &&
              task.category != Null
    ensures CheckName(task.name).Fail? ==> r == CheckName(task.name)
    ensures CheckName(task.name).Pass? && CheckDueDate(task.dueDate, now).Fail? ==> r == Fail(Invalid(DueDate))
    ensures CheckName(task.name).Pass? && CheckDueDate(task.dueDate, now).Pass? && task.category == Null ==>
              r == Fail(Invalid(ParentCategory))
  {
    if CheckName(task.name).Fail? then CheckName(task.name)
    else if task.description.Some? && CheckDescription(task.description).Fail? then CheckDescription(task.description)
    else if task.dueDate.Some? && CheckDueDate(task.dueDate, now).Fail? then CheckDueDate(task.dueDate, now)
    else if task.status.Some? && CheckStatus(task.status).Fail? then CheckStatus(task.status)
    else if task.priority.Some? && CheckPriority(task.priority).Fail? then CheckPriority(task.priority)
    else if task.category == Null then Fail(Invalid(ParentCategory))
    else Pass
  }

  /** createTask's defaults: a null status becomes PENDING, a null priority MEDIUM. */
  function WithDefaults(task: TaskData): (r: TaskData)
    ensures r.status.Some? && r.priority.Some?
    ensures task.status.Some? ==> r.status == task.status
    ensures task.status.None? ==> r.status == Some(Pending)
    ensures task.priority.Some? ==> r.priority == task.priority
    ensures task.priority.None? ==> r.priority == Some(Medium)
    ensures r.(status := task.status, priority := task.priority) == task
  {
    task.(status := if task.status.None? then Some(Pending) else task.status,
          priority := if task.priority.None? then Some(Medium) else task.priority)
  }

  /** Everything createTask checks before it saves, in the order it checks it. */
  function CreateTaskGuard(t: Tables, task: TaskData, now: int): (r: Outcome<Failure>)
    ensures r.Pass? <==>
              task.id.None? && task.name.Some? && !AllSpace(task.name.value) &&
              (task.dueDate.None? || task.dueDate.value >= now) &&
              task.category.Ref? && task.category.id.Some? && task.category.id.value in t.categories
    ensures task.id.Some? ==> r == Fail(IdPresent)
    ensures task.id.None? && CheckTask(task, now).Fail? ==> r == CheckTask(task, now)
    ensures task.id.None? && CheckTask(task, now).Pass? && task.category.id.None? ==> r == Fail(NullId)
  {
    if task.id.Some? then Fail(IdPresent)
    else if CheckTask(task, now).Fail? then CheckTask(task, now)
    else Found(FindCategory(t, task.category.id))
  }

  /** The row createTask inserts: the defaults applied, createdAt stamped, updatedAt null. */
  function NewTaskRow(task: TaskData, category: int, now: int): (r: TaskRow)
    requires task.name.Some?
    ensures r.category == category && r.createdAt == now && r.updatedAt.None?
    ensures r.name == task.name.value && r.description == task.description && r.dueDate == task.dueDate
    ensures r.status == WithDefaults(task).status && r.priority == WithDefaults(task).priority
  {
    var full := WithDefaults(task);
    TaskRow(task.name.value, task.description, full.status, full.priority, task.dueDate, category, now, None)
  }

  /**
   * updateTask's merge: each present incoming value overwrites the stored one; absent values,
   * the category and the timestamps are kept.
   */
  function Merge(row: TaskRow, task: TaskData): (r: TaskRow)
    ensures r.category == row.category && r.createdAt == row.createdAt && r.updatedAt == row.updatedAt
  {
    TaskRow(if task.name.Some? then task.name.value else row.name,
            if task.description.Some? then task.description else row.description,
            if task.status.Some? then task.status else row.status,
            if task.priority.Some? then task.priority else row.priority,
            if task.dueDate.Some? then task.dueDate else row.dueDate,
            row.category, row.createdAt, row.updatedAt)
  }

  /** A stored row seen as the Task entity validateTask receives. */
  function AsData(id: int, row: TaskRow): (r: TaskData)
    ensures r.id == Some(id) && r.name == Some(row.name) && r.dueDate == row.dueDate
    ensures r.category == Ref(Some(row.category))
  {
    TaskData(Some(id), Some(row.name), row.description, row.status, row.priority, row.dueDate,
             Ref(Some(row.category)))
  }

  /** Everything updateTask checks before it saves. */
  function UpdateTaskGuard(t: Tables, task: TaskData, now: int): (r: Outcome<Failure>)
    ensures r.Pass? <==>
              task.id.Some? && task.id.value in t.tasks &&
              !AllSpace(Merge(t.tasks[task.id.value], task).name) &&
              (Merge(t.tasks[task.id.value], task).dueDate.None? ||
               Merge(t.tasks[task.id.value], task).dueDate.value >= now)
    ensures FindTask(t, task.id).Failure? ==> r == Fail(FindTask(t, task.id).error)
  {
    match FindTask(t, task.id)
    case Failure(e) => Fail(e)
    case Success(row) => CheckTask(AsData(task.id.value, Merge(row, task)), now)
  }

  /** The row updateTask saves: the merge, stamped by @PreUpdate only when something changed. */
  function SavedTask(row: TaskRow, task: TaskData, now: int): (r: TaskRow)
    ensures r.category == row.category && r.createdAt == row.createdAt
    ensures Merge(row, task) == row ==> r == row
    ensures Merge(row, task) != row ==> r == Merge(row, task).(updatedAt := Some(now))
  {
    var merged := Merge(row, task);
    if merged == row then row else merged.(updatedAt := Some(now))
  }

  /** isTaskOverdue: a present due date strictly before now, on a task not COMPLETED. */
  predicate IsTaskOverdue(task: TaskData, now: int): (r: bool)
    ensures r <==> CheckDueDate(task.dueDate, now).Fail? && !IsTaskCompleted(task)
  {
    task.dueDate.Some? && task.dueDate.value < now && task.status != Some(Completed)
  }

  /** isTaskCompleted: COMPLETED.equals(status), false for a null status. */
  predicate IsTaskCompleted(task: TaskData): (r: bool)
    ensures r ==> CheckStatus(task.status).Pass?
    ensures task.status.None? ==> !r
  {
    task.status == Some(Completed)
  }

  /** createTask */
  method CreateTask(db: Database, task: TaskData, now: int) returns (r: Result<int, Failure>)
    requires db.Valid()
    modifies db
    ensures db.Valid()
    ensures r.Failure? <==> CreateTaskGuard(old(db.tables), task, now).Fail?
    ensures r.Failure? ==> r.error == CreateTaskGuard(old(db.tables), task, now).error && db.tables == old(db.tables)
    ensures r.Success? ==> r.value !in old(db.tables.tasks)
    ensures r.Success? ==>
              db.tables == old(db.tables).(tasks := old(db.tables.tasks)[r.value :=
                NewTaskRow(task, task.category.id.value, now)])
  {
    if task.id.Some? {
      return Failure(IdPresent);
    }
    var valid := CheckTask(task, now);
    if valid.Fail? {
      return Failure(valid.error);
    }
    var category := FindCategory(db.tables, task.category.id);
    if category.Failure? {
      return Failure(category.error);
    }
    var id := db.NewId();
    var row := NewTaskRow(task, task.category.id.value, now);
    db.PutTask(id, row);
    return Success(id);
  }

  /** updateTask: returns the saved row. */
  method UpdateTask(db: Database, task: TaskData, now: int) returns (r: Result<TaskRow, Failure>)
    requires db.Valid()
    modifies db`tables
    ensures db.Valid()
    ensures r.Failure? <==> UpdateTaskGuard(old(db.tables), task, now).Fail?
    ensures r.Failure? ==> r.error == UpdateTaskGuard(old(db.tables), task, now).error && db.tables == old(db.tables)
    ensures r.Success? ==>
              r.value == SavedTask(old(db.tables.tasks[task.id.value]), task, now) &&
              db.tables == old(db.tables).(tasks := old(db.tables.tasks)[task.id.value := r.value])
  {
    var found := FindTask(db.tables, task.id);
    if found.Failure? {
      return Failure(found.error);
    }
    var k := task.id.value;
    var merged := Merge(found.value, task);
    var valid := CheckTask(AsData(k, merged), now);
    if valid.Fail? {
      return Failure(valid.error);
    }
    var saved := if merged == found.value then found.value else merged.(updatedAt := Some(now));
    db.tables := db.tables.(tasks := db.tables.tasks[k := saved]);
    return Success(saved);
  }

  /** deleteTask: getTaskById, then deleteById. */
  method DeleteTask(db: Database, id: Option<int>) returns (r: Outcome<Failure>)
    requires db.Valid()
    modifies db`tables
    ensures db.Valid()
    ensures r.Pass? <==> id.Some? && id.value in old(db.tables.tasks)
    ensures r.Fail? ==> r == Found(FindTask(old(db.tables), id)) && db.tables == old(db.tables)
    ensures r.Pass? ==> db.tables == DeleteTaskRow(old(db.tables), id.value)
  {
    var found := FindTask(db.tables, id);
    if found.Failure? {
      return Fail(found.error);
    }
    db.tables := DeleteTaskRow(db.tables, id.value);
    return Pass;
  }

  /** The rows the bulk `UPDATE Task t ... WHERE t.id = :taskId AND t.category.id = :categoryId` matches. */
  function RowsInCategory(t: Tables, task: int, category: int): (n: nat)
    ensures n <= 1
    ensures n == 1 <==> task in t.tasks && t.tasks[task].category == category
  {
    if task in t.tasks && t.tasks[task].category == category then 1 else 0
  }

  /** What updateTaskName and updateTaskDescription check, in order, before their bulk update. */
  function InCategoryGuard(t: Tables, first: Outcome<Failure>, taskId: Option<int>, categoryId: Option<int>)
    : (r: Outcome<Failure>)
    ensures r.Pass? <==>
              first.Pass? && taskId.Some? && categoryId.Some? && taskId.value in t.tasks &&
              categoryId.value in t.categories && t.tasks[taskId.value].category == categoryId.value
    ensures first.Fail? ==> r == first
    ensures first.Pass? && taskId.Some? && taskId.value in t.tasks && categoryId.Some? &&
            categoryId.value in t.categories && t.tasks[taskId.value].category != categoryId.value ==>
              r == Fail(NothingUpdated)
  {
    if first.Fail? then first
    else if FindTask(t, taskId).Failure? then Found(FindTask(t, taskId))
    else if FindCategory(t, categoryId).Failure? then Found(FindCategory(t, categoryId))
    else if RowsInCategory(t, taskId.value, categoryId.value) == 0 then Fail(NothingUpdated)
    else Pass
  }

  /**
   * updateTaskName: the name rule, the task and the category must exist, then a bulk update
   * that matches only when the task is in that category. A bulk update bypasses @PreUpdate.
   */
  method UpdateTaskName(db: Database, taskId: Option<int>, categoryId: Option<int>, newName: Option<string>)
    returns (r: Outcome<Failure>)
    requires db.Valid()
    modifies db`tables
    ensures db.Valid()
    ensures r == InCategoryGuard(old(db.tables), CheckName(newName), taskId, categoryId)
    ensures r.Fail? ==> db.tables == old(db.tables)
    ensures r.Pass? ==> db.tables == old(db.tables).(tasks := old(db.tables.tasks)[taskId.value :=
              old(db.tables.tasks[taskId.value]).(name := newName.value)])
  {
    var valid := CheckName(newName);
    if valid.Fail? {
      return valid;
    }
    var task := FindTask(db.tables, taskId);
    if task.Failure? {
      return Fail(task.error);
    }
    var category := FindCategory(db.tables, categoryId);
    if category.Failure? {
      return Fail(category.error);
    }
    var rows := RowsInCategory(db.tables, taskId.value, categoryId.value);
    if rows == 0 {
      return Fail(NothingUpdated);
    }
    db.tables := db.tables.(tasks := db.tables.tasks[taskId.value := task.value.(name := newName.value)]);
    return Pass;
  }

  /** updateTaskDescription: as updateTaskName, with the description rule (null throws). */
  method UpdateTaskDescription(db: Database, taskId: Option<int>, categoryId: Option<int>,
                               newDescription: Option<string>)
    returns (r: Outcome<Failure>)
    requires db.Valid()
    modifies db`tables
    ensures db.Valid()
    ensures r == InCategoryGuard(old(db.tables), CheckDescription(newDescription), taskId, categoryId)
    ensures r.Fail? ==> db.tables == old(db.tables)
    ensures r.Pass? ==> db.tables == old(db.tables).(tasks := old(db.tables.tasks)[taskId.value :=
              old(db.tables.tasks[taskId.value]).(description := newDescription)])
  {
    var valid := CheckDescription(newDescription);
    if valid.Fail? {
      return valid;
    }
    var task := FindTask(db.tables, taskId);
    if task.Failure? {
      return Fail(task.error);
    }
    var category := FindCategory(db.tables, categoryId);
    if category.Failure? {
      return Fail(category.error);
    }
    var rows := RowsInCategory(db.tables, taskId.value, categoryId.value);
    if rows == 0 {
      return Fail(NothingUpdated);
    }
    db.tables := db.tables.(tasks := db.tables.tasks[taskId.value := task.value.(description := newDescription)]);
    return Pass;
  }

  /** updateTaskStatus: the status rule, the task must exist, then a bulk update by id alone. */
  method UpdateTaskStatus(db: Database, taskId: Option<int>, newStatus: Option<TaskStatus>)
    returns (r: Outcome<Failure>)
    requires db.Valid()
    modifies db`tables
    ensures db.Valid()
    ensures r.Pass? <==> newStatus.Some? && taskId.Some? && taskId.value in old(db.tables.tasks)
    ensures newStatus.None? ==> r == Fail(Invalid(Status))
    ensures newStatus.Some? && r.Fail? ==> r == Found(FindTask(old(db.tables), taskId))
    ensures r.Fail? ==> db.tables == old(db.tables)
    ensures r.Pass? ==> db.tables == old(db.tables).(tasks := old(db.tables.tasks)[taskId.value :=
              old(db.tables.tasks[taskId.value]).(status := newStatus)])
  {
    var valid := CheckStatus(newStatus);
    if valid.Fail? {
      return valid;
    }
    var task := FindTask(db.tables, taskId);
    if task.Failure? {
      return Fail(task.error);
    }
    // WHERE t.id = :id matches the row just found
    var rows := if taskId.value in db.tables.tasks then 1 else 0;
    if rows == 0 {
      return Fail(NothingUpdated);
    }
    db.tables := db.tables.(tasks := db.tables.tasks[taskId.value := task.value.(status := newStatus)]);
    return Pass;
  }

  // ---- properties ----

  /** A task that is overdue is not completed. */
  lemma OverdueIsNotCompleted(task: TaskData, now: int)
    requires IsTaskOverdue(task, now)
    ensures !IsTaskCompleted(task)
  {
  }

  /** A task that passed validateTask at some instant is not overdue at that instant. */
  lemma AcceptedTaskIsNotOverdue(task: TaskData, now: int)
    requires CheckTask(task, now).Pass?
    ensures !IsTaskOverdue(task, now)
  {
  }

  /** Once overdue, a task stays overdue as time passes (while its fields do not change). */
  lemma OverdueStaysOverdue(task: TaskData, now: int, later: int)
    requires IsTaskOverdue(task, now) && now <= later
    ensures IsTaskOverdue(task, later)
  {
  }

  /** createTask stores both defaults, and keeps every supplied status and priority. */
  lemma CreatedTaskHasStatusAndPriority(task: TaskData, category: int, now: int)
    requires task.name.Some?
    ensures NewTaskRow(task, category, now).status.Some? && NewTaskRow(task, category, now).priority.Some?
    ensures task.status.Some? ==> NewTaskRow(task, category, now).status == task.status
    ensures task.priority.Some? ==> NewTaskRow(task, category, now).priority == task.priority
  {
  }

  /** A merge with nothing to copy leaves the row as it was; updateTask then saves it unchanged. */
  lemma EmptyMergeKeepsRow(row: TaskRow, id: Option<int>, category: Parent, now: int)
    ensures Merge(row, TaskData(id, None, None, None, None, None, category)) == row
    ensures SavedTask(row, TaskData(id, None, None, None, None, None, category), now) == row
  {
  }

  /** Merging the same incoming task twice is the same as merging it once. */
  lemma MergeIsIdempotent(row: TaskRow, task: TaskData)
    ensures Merge(Merge(row, task), task) == Merge(row, task)
  {
  }

  /** Every present incoming value wins the merge; every absent one keeps the stored value. */
  lemma MergeTakesPresentValues(row: TaskRow, task: TaskData)
    ensures task.name.Some? ==> Merge(row, task).name == task.name.value
    ensures task.name.None? ==> Merge(row, task).name == row.name
    ensures task.dueDate.Some? ==> Merge(row, task).dueDate == task.dueDate
    ensures task.dueDate.None? ==> Merge(row, task).dueDate == row.dueDate
    ensures task.status.Some? ==> Merge(row, task).status == task.status
    ensures task.status.None? ==> Merge(row, task).status == row.status
    ensures task.priority.Some? ==> Merge(row, task).priority == task.priority
    ensures task.priority.None? ==> Merge(row, task).priority == row.priority
    ensures task.description.Some? ==> Merge(row, task).description == task.description
    ensures task.description.None? ==> Merge(row, task).description == row.description
  {
  }

  /**
   * updateTask re-validates the merged task: a stored due date already in the past makes every
   * update fail unless the update supplies a due date that is not in the past.
   */
  lemma StalePastDueDateBlocksUpdate(t: Tables, task: TaskData, now: int)
    requires task.id.Some? && task.id.value in t.tasks
    requires t.tasks[task.id.value].dueDate.Some? && t.tasks[task.id.value].dueDate.value < now
    requires task.dueDate.None?
    ensures UpdateTaskGuard(t, task, now).Fail?
  {
  }

  /** The past-due-date rule holds on update as on create. */
  lemma PastDueDateRejectedOnUpdate(t: Tables, task: TaskData, now: int)
    requires task.dueDate.Some? && task.dueDate.value < now
    ensures CreateTaskGuard(t, task, now).Fail?
    ensures UpdateTaskGuard(t, task, now).Fail?
  {
  }
}
