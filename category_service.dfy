/**
 * CategoryService: creating, overwriting, deleting and partially updating category rows,
 * attaching and detaching tasks through the category's cascading task set, and the
 * category-to-tasks map of a board.
 */
module CategoryService {
  import opened Wrappers
  import opened Text
  import opened Entities
  import opened Store
  import opened Checks

  /**
   * validateCategory: the name rule, then "must belong to a board", then the description rule,
   * which a null description fails by dereferencing it.
   */
  function CheckCategory(category: CategoryData): (r: Outcome<Failure>)
    ensures r.Pass? <==>
              category.name.Some? && !AllSpace(category.name.value) &&
              category.board != Null && category.description.Some?
    ensures CheckName(category.name).Fail? ==> r == Fail(Invalid(Name))
    ensures CheckName(category.name).Pass? && category.board == Null ==> r == Fail(Invalid(ParentBoard))
    ensures CheckName(category.name).Pass? && category.board != Null && category.description.None? ==>
              r == Fail(NullDereference)
  {
    if CheckName(category.name).Fail? then CheckName(category.name)
    else if category.board == Null then Fail(Invalid(ParentBoard))
    else CheckDescription(category.description)
  }

  /** Everything createCategory checks before it saves. */
  function CreateCategoryGuard(t: Tables, category: CategoryData): (r: Outcome<Failure>)
    ensures r.Pass? <==>
              category.id.None? && category.name.Some? && !AllSpace(category.name.value) &&
              category.description.Some? &&
              category.board.Ref? && category.board.id.Some? && category.board.id.value in t.boards
    ensures category.id.Some? ==> r == Fail(IdPresent)
    ensures category.id.None? && CheckCategory(category).Fail? ==> r == CheckCategory(category)
    ensures category.id.None? && CheckCategory(category).Pass? && category.board.id.None? ==> r == Fail(NullId)
  {
    if category.id.Some? then Fail(IdPresent)
    else if CheckCategory(category).Fail? then CheckCategory(category)
    else Found(FindBoard(t, category.board.id))
  }

  /** The row a save of a new category inserts: createdAt stamped by @PrePersist, updatedAt null. */
  function NewCategoryRow(category: CategoryData, board: int, now: int): (r: CategoryRow)
    requires category.name.Some?
    ensures r.name == category.name.value && r.description == category.description && r.board == board
    ensures r.createdAt == now && r.updatedAt.None?
  {
    CategoryRow(category.name.value, category.description, board, now, None)
  }

  /** Everything updateCategory checks before it saves, in its order: find, validate, find the board. */
  function UpdateCategoryGuard(t: Tables, category: CategoryData): (r: Outcome<Failure>)
    ensures r.Pass? <==>
              category.id.Some? && category.id.value in t.categories &&
              category.name.Some? && !AllSpace(category.name.value) && category.description.Some? &&
              category.board.Ref? && category.board.id.Some? && category.board.id.value in t.boards
    ensures FindCategory(t, category.id).Failure? ==> r == Found(FindCategory(t, category.id))
    ensures FindCategory(t, category.id).Success? && CheckCategory(category).Fail? ==> r == CheckCategory(category)
  {
    if FindCategory(t, category.id).Failure? then Found(FindCategory(t, category.id))
    else if CheckCategory(category).Fail? then CheckCategory(category)
    else Found(FindBoard(t, category.board.id))
  }

  /**
   * updateCategory's overwrite: the name and the board are replaced; the description, the tasks
   * and the creation time stay. @PreUpdate stamps updatedAt only when the row really changes.
   */
  function Overwrite(row: CategoryRow, name: string, board: int, now: int): (r: CategoryRow)
    ensures r.name == name && r.board == board
    ensures r.description == row.description && r.createdAt == row.createdAt
    ensures row.name == name && row.board == board ==> r == row
    ensures row.name != name || row.board != board ==> r.updatedAt == Some(now)
  {
    if row.name == name && row.board == board then row
    else row.(name := name, board := board, updatedAt := Some(now))
  }

  /** The row cascade-merge writes for a task attached to `category`: all of the task's own fields. */
  function AttachedTask(task: TaskData, category: int, createdAt: int, updatedAt: Option<int>): (r: TaskRow)
    requires task.name.Some?
    ensures r.category == category && r.createdAt == createdAt && r.updatedAt == updatedAt
    ensures r.name == task.name.value && r.description == task.description
    ensures r.status == task.status && r.priority == task.priority && r.dueDate == task.dueDate
  {
    TaskRow(task.name.value, task.description, task.status, task.priority, task.dueDate, category,
            createdAt, updatedAt)
  }

  /**
   * What addTask checks: the category must exist. A task whose id the category already holds is
   * left alone; any other task is cascaded on save, which fails for a null name (a NOT NULL
   * column) and for an id no row has.
   */
  function AddTaskGuard(t: Tables, categoryId: Option<int>, task: TaskData): (r: Outcome<Failure>)
    ensures r.Pass? <==>
              categoryId.Some? && categoryId.value in t.categories &&
              ((task.id.Some? && task.id.value in TasksOf(t, categoryId.value)) ||
               (task.name.Some? && (task.id.None? || task.id.value in t.tasks)))
    ensures FindCategory(t, categoryId).Failure? ==> r == Found(FindCategory(t, categoryId))
  {
    if FindCategory(t, categoryId).Failure? then Found(FindCategory(t, categoryId))
    else if task.id.Some? && task.id.value in TasksOf(t, categoryId.value) then Pass
    else if task.name.None? then Fail(PersistenceFailure)
    else if task.id.Some? && task.id.value !in t.tasks then Fail(PersistenceFailure)
    else Pass
  }

  /** createCategory; returns the generated id. */
  method CreateCategory(db: Database, category: CategoryData, now: int) returns (r: Result<int, Failure>)
    requires db.Valid()
    modifies db
    ensures db.Valid()
    ensures r.Failure? <==> CreateCategoryGuard(old(db.tables), category).Fail?
    ensures r.Failure? ==> r.error == CreateCategoryGuard(old(db.tables), category).error && db.tables == old(db.tables)
    ensures r.Success? ==> r.value !in old(db.tables.categories)
    ensures r.Success? ==>
              db.tables == old(db.tables).(categories := old(db.tables.categories)[r.value :=
                NewCategoryRow(category, category.board.id.value, now)])
  {
    if category.id.Some? {
      return Failure(IdPresent);
    }
    var valid := CheckCategory(category);
    if valid.Fail? {
      return Failure(valid.error);
    }
    var board := FindBoard(db.tables, category.board.id);
    if board.Failure? {
      return Failure(board.error);
    }
    var id := db.NewId();
    db.PutCategory(id, NewCategoryRow(category, category.board.id.value, now));
    return Success(id);
  }

  /** updateCategory: returns the saved row. */
  method UpdateCategory(db: Database, category: CategoryData, now: int) returns (r: Result<CategoryRow, Failure>)
    requires db.Valid()
    modifies db`tables
    ensures db.Valid()
    ensures r.Failure? <==> UpdateCategoryGuard(old(db.tables), category).Fail?
    ensures r.Failure? ==> r.error == UpdateCategoryGuard(old(db.tables), category).error && db.tables == old(db.tables)
    ensures r.Success? ==>
              r.value == Overwrite(old(db.tables.categories[category.id.value]), category.name.value,
                                   category.board.id.value, now) &&
              db.tables == old(db.tables).(categories := old(db.tables.categories)[category.id.value := r.value])
  {
    var existing := FindCategory(db.tables, category.id);
    if existing.Failure? {
      return Failure(existing.error);
    }
    var valid := CheckCategory(category);
    if valid.Fail? {
      return Failure(valid.error);
    }
    var board := FindBoard(db.tables, category.board.id);
    if board.Failure? {
      return Failure(board.error);
    }
    var saved := Overwrite(existing.value, category.name.value, category.board.id.value, now);
    db.PutCategory(category.id.value, saved);
    return Success(saved);
  }

  /** updateCategoryName: the name rule, the category must exist, then a bulk update by id. */
  method UpdateCategoryName(db: Database, categoryId: Option<int>, newName: Option<string>)
    returns (r: Outcome<Failure>)
    requires db.Valid()
    modifies db`tables
    ensures db.Valid()
    ensures r.Pass? <==> newName.Some? && !AllSpace(newName.value) &&
                         categoryId.Some? && categoryId.value in old(db.tables.categories)
    ensures CheckName(newName).Fail? ==> r == CheckName(newName)
    ensures CheckName(newName).Pass? && r.Fail? ==> r == Found(FindCategory(old(db.tables), categoryId))
    ensures r.Fail? ==> db.tables == old(db.tables)
    ensures r.Pass? ==> db.tables == old(db.tables).(categories := old(db.tables.categories)[categoryId.value :=
              old(db.tables.categories[categoryId.value]).(name := newName.value)])
  {
    var valid := CheckName(newName);
    if valid.Fail? {
      return valid;
    }
    var category := FindCategory(db.tables, categoryId);
    if category.Failure? {
      return Fail(category.error);
    }
    // WHERE c.id = :id matches the row just found
    var rows := if categoryId.value in db.tables.categories then 1 else 0;
    if rows == 0 {
      return Fail(NothingUpdated);
    }
    db.PutCategory(categoryId.value, category.value.(name := newName.value));
    return Pass;
  }

  /**
   * updateCategoryDescription: the description rule, the category and the board must exist, then
   * a bulk update that matches only when the category is on that board.
   */
  method UpdateCategoryDescription(db: Database, categoryId: Option<int>, boardId: Option<int>,
                                   newDescription: Option<string>)
    returns (r: Outcome<Failure>)
    requires db.Valid()
    modifies db`tables
    ensures db.Valid()
    ensures r.Pass? <==> newDescription.Some? && categoryId.Some? && categoryId.value in old(db.tables.categories) &&
                         boardId.Some? && old(db.tables.categories[categoryId.value]).board == boardId.value
    ensures newDescription.None? ==> r == Fail(NullDereference)
    ensures newDescription.Some? && FindCategory(old(db.tables), categoryId).Failure? ==>
              r == Found(FindCategory(old(db.tables), categoryId))
    ensures newDescription.Some? && FindCategory(old(db.tables), categoryId).Success? && boardId.None? ==>
              r == Fail(NullId)
    ensures newDescription.Some? && FindCategory(old(db.tables), categoryId).Success? && boardId.Some? && r.Fail? ==>
              r == (if boardId.value in old(db.tables.boards) then Fail(NothingUpdated) else Fail(NotFound))
    ensures r.Fail? ==> db.tables == old(db.tables)
    ensures r.Pass? ==> db.tables == old(db.tables).(categories := old(db.tables.categories)[categoryId.value :=
              old(db.tables.categories[categoryId.value]).(description := newDescription)])
  {
    var valid := CheckDescription(newDescription);
    if valid.Fail? {
      return valid;
    }
    var category := FindCategory(db.tables, categoryId);
    if category.Failure? {
      return Fail(category.error);
    }
    var board := FindBoard(db.tables, boardId);
    if board.Failure? {
      var k := categoryId.value;
      assert db.tables.categories[k].board in db.tables.boards;
      return Fail(board.error);
    }
    // WHERE c.id = :categoryId AND c.board.id = :boardId
    var rows := if category.value.board == boardId.value then 1 else 0;
    if rows == 0 {
      return Fail(NothingUpdated);
    }
    db.PutCategory(categoryId.value, category.value.(description := newDescription));
    return Pass;
  }

  /** deleteCategory: getCategoryById, then deleteById, which cascades to the category's tasks. */
  method DeleteCategory(db: Database, categoryId: Option<int>) returns (r: Outcome<Failure>)
    requires db.Valid()
    modifies db`tables
    ensures db.Valid()
    ensures r.Pass? <==> categoryId.Some? && categoryId.value in old(db.tables.categories)
    ensures r.Fail? ==> r == Found(FindCategory(old(db.tables), categoryId)) && db.tables == old(db.tables)
    ensures r.Pass? ==> db.tables == DeleteCategoryRow(old(db.tables), categoryId.value)
  {
    var category := FindCategory(db.tables, categoryId);
    if category.Failure? {
      return Fail(category.error);
    }
    db.tables := DeleteCategoryRow(db.tables, categoryId.value);
    return Pass;
  }

  /**
   * addTask: category.addTask(task), then save(category). A task the category already holds is
   * untouched; otherwise the cascade inserts a new task (no validation, no defaults) or moves an
   * existing one here, overwriting its fields and stamping updatedAt. Returns the task's id.
   */
  method AddTask(db: Database, categoryId: Option<int>, task: TaskData, now: int) returns (r: Result<int, Failure>)
    requires db.Valid()
    modifies db
    ensures db.Valid()
    ensures r.Failure? <==> AddTaskGuard(old(db.tables), categoryId, task).Fail?
    ensures r.Failure? ==> r.error == AddTaskGuard(old(db.tables), categoryId, task).error && db.tables == old(db.tables)
    ensures r.Success? ==> r.value in TasksOf(db.tables, categoryId.value)
    ensures r.Success? && task.id.Some? ==> r.value == task.id.value
    ensures r.Success? && task.id.Some? && task.id.value in TasksOf(old(db.tables), categoryId.value) ==>
              db.tables == old(db.tables)
    ensures r.Success? && task.id.None? ==>
              r.value !in old(db.tables.tasks) &&
              db.tables == old(db.tables).(tasks := old(db.tables.tasks)[r.value :=
                AttachedTask(task, categoryId.value, now, None)])
    ensures r.Success? && task.id.Some? && task.id.value !in TasksOf(old(db.tables), categoryId.value) ==>
              db.tables == old(db.tables).(tasks := old(db.tables.tasks)[r.value :=
                AttachedTask(task, categoryId.value, old(db.tables.tasks[r.value].createdAt), Some(now))])
  {
    var category := FindCategory(db.tables, categoryId);
    if category.Failure? {
      return Failure(category.error);
    }
    var c := categoryId.value;
    if task.id.Some? && task.id.value in TasksOf(db.tables, c) {
      return Success(task.id.value);
    }
    if task.name.None? {
      return Failure(PersistenceFailure);
    }
    if task.id.None? {
      var id := db.NewId();
      db.PutTask(id, AttachedTask(task, c, now, None));
      return Success(id);
    }
    var existing := FindTask(db.tables, task.id);
    if existing.Failure? {
      return Failure(PersistenceFailure);
    }
    db.PutTask(task.id.value, AttachedTask(task, c, existing.value.createdAt, Some(now)));
    return Success(task.id.value);
  }

  /**
   * removeTask: category.removeTask(task), then save(category). A task the category holds is
   * removed from its set and deleted as an orphan; any other task changes nothing.
   */
  method RemoveTask(db: Database, categoryId: Option<int>, task: TaskData) returns (r: Outcome<Failure>)
    requires db.Valid()
    modifies db`tables
    ensures db.Valid()
    ensures r.Pass? <==> categoryId.Some? && categoryId.value in old(db.tables.categories)
    ensures r.Fail? ==> r == Found(FindCategory(old(db.tables), categoryId)) && db.tables == old(db.tables)
    ensures r.Pass? ==> task.id.None? || task.id.value !in TasksOf(db.tables, categoryId.value)
    ensures r.Pass? && task.id.Some? && task.id.value in TasksOf(old(db.tables), categoryId.value) ==>
              db.tables == DeleteTaskRow(old(db.tables), task.id.value)
    ensures r.Pass? && (task.id.None? || task.id.value !in TasksOf(old(db.tables), categoryId.value)) ==>
              db.tables == old(db.tables)
  {
    var category := FindCategory(db.tables, categoryId);
    if category.Failure? {
      return Fail(category.error);
    }
    if task.id.Some? && task.id.value in TasksOf(db.tables, categoryId.value) {
      db.tables := DeleteTaskRow(db.tables, task.id.value);
    }
    return Pass;
  }

  /**
   * getTasksByCategory: the board must exist; then one entry per category of the board, holding
   * that category's tasks.
   */
  method GetTasksByCategory(db: Database, boardId: Option<int>) returns (r: Result<map<int, set<int>>, Failure>)
    ensures r.Success? <==> boardId.Some? && boardId.value in db.tables.boards
    ensures r.Failure? ==> r.error == FindBoard(db.tables, boardId).error
    ensures r.Success? ==> r.value.Keys == CategoriesOf(db.tables, boardId.value)
    ensures r.Success? ==> forall c :: c in r.value ==> r.value[c] == TasksOf(db.tables, c)
  {
    var board := FindBoard(db.tables, boardId);
    if board.Failure? {
      return Failure(board.error);
    }
    var categories := CategoriesOf(db.tables, boardId.value);
    var todo := categories;
    var m: map<int, set<int>> := map[];
    while todo != {}
      invariant todo <= categories
      invariant m.Keys == categories - todo
      invariant forall c :: c in m ==> m[c] == TasksOf(db.tables, c)
      decreases todo
    {
      assert exists c :: c in todo by {
        if forall c :: c !in todo {
          assert false;
        }
      }
      var category :| category in todo;
      m := m[category := TasksOf(db.tables, category)];
      todo := todo - {category};
    }
    return Success(m);
  }

  // ---- properties ----

  /** A category with a null description is refused on create and on update, whatever else it holds. */
  lemma NullDescriptionIsRefused(t: Tables, category: CategoryData)
    requires category.description.None?
    ensures CreateCategoryGuard(t, category).Fail?
    ensures UpdateCategoryGuard(t, category).Fail?
  {
  }

  /** Any non-null description, blank included, passes the description rule of a category. */
  lemma AnyDescriptionIsAccepted(name: string, description: string, board: int)
    requires !AllSpace(name)
    ensures CheckCategory(CategoryData(None, Some(name), Some(description), Ref(Some(board)))).Pass?
  {
  }

  /** Overwriting with the stored name and board changes nothing; overwriting twice is overwriting once. */
  lemma OverwriteIsIdempotent(row: CategoryRow, name: string, board: int, now: int, later: int)
    ensures Overwrite(row.(name := name, board := board), name, board, later) == row.(name := name, board := board)
    ensures Overwrite(Overwrite(row, name, board, now), name, board, later) == Overwrite(row, name, board, now)
  {
  }

  /** Two categories never share a task: the lists getTasksByCategory returns are disjoint. */
  lemma TaskListsAreDisjoint(t: Tables, c1: int, c2: int)
    requires c1 != c2
    ensures TasksOf(t, c1) !! TasksOf(t, c2)
  {
  }

  /** In a consistent store every task of a board's category shows up in getTasksByCategory's map. */
  lemma EveryTaskOfTheBoardIsListed(t: Tables, board: int, k: int)
    requires Consistent(t) && k in t.tasks && t.categories[t.tasks[k].category].board == board
    ensures t.tasks[k].category in CategoriesOf(t, board) && k in TasksOf(t, t.tasks[k].category)
  {
  }

  /** Adding a task twice: after a successful addTask the task is held, so a second one is a no-op. */
  lemma AddTaskTwiceIsNoOp(t: Tables, category: int, task: TaskData)
    requires task.id.Some? && task.id.value in TasksOf(t, category) && category in t.categories
    ensures AddTaskGuard(t, Some(category), task).Pass?
  {
  }
}
