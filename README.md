# Taskboard ownership graph and service rules, in Dafny

This project models the core of a Spring Boot "taskboard" application. Users own boards,
boards hold categories, and categories hold tasks. The model has two layers.

**The entity layer** (`entities.dfy`) follows the JPA entity classes `User`, `Board`,
`Category` and `Task` as Dafny classes whose fields are updated in place.

- Each parent keeps a `HashSet` of children, each child a reference back to its parent.
- Set membership follows `equals`/`hashCode`, which compare ids only. A set is a
  `set<T>` where "contains" means "some member has the same id" (`HasBoard`, `WithBoard`,
  `WithoutBoard`, and the same for categories and tasks).
- Two unsaved entities (null ids) are therefore equal and collapse in a set.
- Each pair of Java methods that call each other (`addTask` / `setCategory`, `addBoard` /
  `setUser`, ...) is one Dafny method whose contract is the net effect of the call chain.
- `Board.setUser` unlinks the board from its previous owner; `Category.setBoard` and
  `Task.setCategory` do not. The contracts say both.
- A user's board set is an object of its own (`BoardSet`), because `User.setBoards` and
  the three-argument constructor keep the caller's set itself.

**The service layer** (`task_service.dfy`, `category_service.dfy`, `board_service.dfy`,
`user_service.dfy`) runs over `Store.Database`: four id-keyed tables of rows, each child
row holding its parent's id.

- `Database.Valid` says every foreign key names a row, usernames and emails are unique,
  and every key is below the id generator. Every service method keeps it.
- Each service operation is a guard function (the checks, in the order the Java code
  makes them) and a method. The method fails exactly when the guard fails, with the same
  error, and then leaves the tables as they were (the transaction is rolled back). On
  success its contract gives the exact new tables.
- Errors are the `Store.Failure` kinds. A kind names the check that failed, not the exception's message. For the not-found case it does not name the exception class either (see "Left out").
- "Now" is a parameter. Ids come from `Database.NewId`.
- The bulk `@Modifying` updates keep their own WHERE clause as the "zero rows updated"
  rule, and bypass `@PreUpdate`: they do not stamp `updatedAt`.
- Cascades: deleting a category deletes its tasks; deleting a board deletes its categories
  and their tasks. Removing a child through the parent's set deletes it as an orphan.
  This also holds when the child is re-parented in the same transaction. So updateBoard with
  a different owner deletes the board (it leaves the old owner's `boards` set). And a category
  that addCategoryToBoard moves from another board loses its stored tasks, because the merge
  replaces its task set by the empty one the incoming object carries.
- Reproduced as written: `validateDescription` tests `description == null && ...`. It
  accepts every non-null description and dereferences a null one (`NullDereference`).
  `validateCategory` always applies it, so a category needs a non-null description.
  `updateTask` re-validates the merged task, so a past due date blocks updates too.

`text.dfy` models `String.trim()` and the blank test. `checks.dfy` holds the validators
and argument guards shared by the services. `wrappers.dfy` holds `Option`, `Result` and
`Outcome`.

## Model

| member | source | states |
|---|---|---|
| Text.BlankIffAllSpace | src/main/java/com/taskboard/taskboard/services/TaskService.java:307-311 | `name.trim().isEmpty()` holds exactly when every character of the name is one that trim() strips (code point at most U+0020), in both directions |
| Text.Trim | src/main/java/com/taskboard/taskboard/services/TaskService.java:307-311 | trim() returns an infix of the input with only stripped characters cut off either end, and the infix neither starts nor ends with one |
| Checks.CheckName | src/main/java/com/taskboard/taskboard/services/TaskService.java:307-311 | validateName (the same rule in the three services and the getCategoriesByName guard at CategoryService.java:50-55): passes exactly for a non-null name holding a non-space character; otherwise the IllegalArgumentException about the name |
| Checks.CheckDescription | src/main/java/com/taskboard/taskboard/services/TaskService.java:313-317 | validateDescription's `==` / `&&` guard: every non-null description passes, blank or empty included; a null one fails with a null dereference, never with an IllegalArgumentException |
| Checks.CheckDueDate | src/main/java/com/taskboard/taskboard/services/TaskService.java:331-335 | a due date passes exactly when it is absent or not strictly before now |
| Checks.CheckStatus | src/main/java/com/taskboard/taskboard/services/TaskService.java:319-323 | a status passes exactly when it is non-null |
| Checks.CheckPriority | src/main/java/com/taskboard/taskboard/services/TaskService.java:325-329 | a priority passes exactly when it is non-null |
| Checks.CheckUsername | src/main/java/com/taskboard/taskboard/services/UserService.java:215-222 | a username passes exactly when it is non-null, not blank, and its untrimmed length is at least 3 |
| Checks.CheckEmail | src/main/java/com/taskboard/taskboard/services/UserService.java:224-231 | an email passes exactly when it is non-null and contains both '@' and '.' (the blank test is subsumed) |
| Checks.CheckThreshold | src/main/java/com/taskboard/taskboard/services/BoardService.java:92-97 | a Long threshold (also getBoardsWithMoreThanXTasks at 135-140 and getUsernamesWithMoreThanXBoards at UserService.java:124-129) passes exactly when present and non-negative; null fails by null dereference, a negative value by IllegalArgumentException |
| Checks.CheckDate | src/main/java/com/taskboard/taskboard/services/CategoryService.java:151-156 | a date argument (also getBoardsCreatedAfter at BoardService.java:125-130) passes exactly when non-null |
| Checks.CheckDateRange | src/main/java/com/taskboard/taskboard/services/TaskService.java:137-142 | getTasksCreatedBetween passes exactly when both dates are non-null; their order is not checked |
| Checks.CheckKeyword | src/main/java/com/taskboard/taskboard/services/UserService.java:82-87 | a search keyword passes exactly when non-null and not blank |
| Checks.CheckDomain | src/main/java/com/taskboard/taskboard/services/UserService.java:92-97 | an email domain passes exactly when it is non-empty and starts with '@' |
| Checks.Found | src/main/java/com/taskboard/taskboard/services/TaskService.java:34-37 | a getXById seen as a check: passes exactly when the row is found, and otherwise carries the lookup's failure |
| Store.FindUser | src/main/java/com/taskboard/taskboard/services/UserService.java:26-29 | getUserById: succeeds exactly for a present id naming a row, returning that row; a null id and a missing row are the two distinct failures |
| Store.FindBoard | src/main/java/com/taskboard/taskboard/services/BoardService.java:29-32 | getBoardById: as FindUser, on the boards table |
| Store.FindCategory | src/main/java/com/taskboard/taskboard/services/CategoryService.java:35-38 | getCategoryById: as FindUser, on the categories table |
| Store.FindTask | src/main/java/com/taskboard/taskboard/services/TaskService.java:34-37 | getTaskById: as FindUser, on the tasks table |
| Store.DeleteTaskRow | src/main/java/com/taskboard/taskboard/services/TaskService.java:223-227 | deleteById on a task removes exactly that row and keeps every foreign key and unique column intact |
| Store.ClearTasks | src/main/java/com/taskboard/taskboard/entities/Category.java:52 | orphan removal on a category's task set emptied by a merge: exactly the tasks whose foreign key names the category go, the category and every other row stay, and the store stays consistent |
| Store.DeleteCategoryRow | src/main/java/com/taskboard/taskboard/entities/Category.java:52 | deleting a category cascades (CascadeType.ALL) to exactly the tasks whose foreign key names it; every other row is untouched and the store stays consistent |
| Store.DeleteBoardRow | src/main/java/com/taskboard/taskboard/entities/Board.java:52 | deleting a board cascades to exactly its categories and the tasks in them; every other row is untouched and the store stays consistent |
| Store.DeleteUserRow | src/main/java/com/taskboard/taskboard/services/UserService.java:198-205 | deleting a user that owns no board removes exactly that row and keeps the store consistent |
| Store.Database.NewId | src/main/java/com/taskboard/taskboard/entities/Task.java:48 | the IDENTITY column hands out an id that no table holds and that exceeds every stored id, keeping the database valid |
| Entities.WithBoard | src/main/java/com/taskboard/taskboard/entities/User.java:84-87 | HashSet.add under id-equality: afterwards some member has the board's id; the set is unchanged exactly when one already had; distinct ids are kept |
| Entities.WithoutBoard | src/main/java/com/taskboard/taskboard/entities/User.java:93-96 | HashSet.remove under id-equality: afterwards no member has the board's id, every member with another id stays, distinct ids are kept |
| Entities.WithCategory | src/main/java/com/taskboard/taskboard/entities/Board.java:96-101 | HashSet.add on categories: as WithBoard |
| Entities.WithoutCategory | src/main/java/com/taskboard/taskboard/entities/Board.java:108-113 | HashSet.remove on categories: as WithoutBoard |
| Entities.WithTask | src/main/java/com/taskboard/taskboard/entities/Category.java:83-88 | HashSet.add on tasks: as WithBoard |
| Entities.WithoutTask | src/main/java/com/taskboard/taskboard/entities/Category.java:95-100 | HashSet.remove on tasks: as WithoutBoard |
| Entities.AddThenRemoveBoardRestores | src/main/java/com/taskboard/taskboard/entities/User.java:84-96 | removeBoard undoes addBoard on the board set for a board whose id the set did not hold |
| Entities.AddThenRemoveCategoryRestores | src/main/java/com/taskboard/taskboard/entities/Board.java:96-113 | removeCategory undoes addCategory on the category set for a category whose id the set did not hold |
| Entities.AddThenRemoveTaskRestores | src/main/java/com/taskboard/taskboard/entities/Category.java:83-100 | removeTask undoes addTask on the task set for a task whose id the set did not hold |
| Entities.UnsavedBoardsCollapse | src/main/java/com/taskboard/taskboard/entities/Board.java:209-223 | two boards with null ids are equal, so adding a second unsaved board to a set holding one leaves the set unchanged |
| Entities.UnsavedTasksCollapse | src/main/java/com/taskboard/taskboard/entities/Task.java:225-239 | two tasks with null ids are equal, so adding a second unsaved task to a set holding one leaves the set unchanged |
| Entities.EqualUsersHashAlike | src/main/java/com/taskboard/taskboard/entities/User.java:176-190 | users that are equal have the same hashCode, which depends on the id alone |
| Entities.EqualBoardsHashAlike | src/main/java/com/taskboard/taskboard/entities/Board.java:209-223 | boards that are equal have the same hashCode, which depends on the id alone |
| Entities.EqualCategoriesHashAlike | src/main/java/com/taskboard/taskboard/entities/Category.java:194-208 | categories that are equal have the same hashCode, which depends on the id alone |
| Entities.EqualTasksHashAlike | src/main/java/com/taskboard/taskboard/entities/Task.java:225-239 | tasks that are equal have the same hashCode, which depends on the id alone |
| Entities.BoardSet.constructor | src/main/java/com/taskboard/taskboard/entities/User.java:43-44 | a user's board set starts as an empty HashSet |
| Entities.User.Default | src/main/java/com/taskboard/taskboard/entities/User.java:55 | User(): no id, username or email, a fresh empty board set, no timestamps |
| Entities.User.Required | src/main/java/com/taskboard/taskboard/entities/User.java:63 | User(username, email): those fields, a fresh empty board set, no id and no timestamps |
| Entities.User.Full | src/main/java/com/taskboard/taskboard/entities/User.java:74-78 | User(username, email, boards) keeps the caller's set object itself and changes neither its members nor their owners |
| Entities.User.SetId | src/main/java/com/taskboard/taskboard/entities/User.java:103-105 | setId replaces the id and nothing else |
| Entities.User.Equals | src/main/java/com/taskboard/taskboard/entities/User.java:176-184 | equals holds exactly for a non-null user with the same id, so two users with null ids are equal |
| Entities.User.AddBoard | src/main/java/com/taskboard/taskboard/entities/User.java:84-87 | afterwards the set holds the board's id and the board's owner equals this user; a board owned elsewhere is moved, leaving its old owner's set |
| Entities.User.RemoveBoard | src/main/java/com/taskboard/taskboard/entities/User.java:93-96 | afterwards no member has the board's id, the board has no owner, and the old owner's set lost it as well |
| Entities.User.Adopt | src/main/java/com/taskboard/taskboard/entities/User.java:137-139 | one loop step of setBoards: a board owned by another user is re-owned by this user and leaves the other set; a board of an equal user keeps its owner |
| Entities.User.SetBoards | src/main/java/com/taskboard/taskboard/entities/User.java:132-142 | the user's set becomes the caller's set object with its members unchanged; boards owned by an equal user keep that owner, every other member is re-owned by this user and is no longer in its previous owner's set, and other owners' sets only shrink |
| Entities.Board.Default | src/main/java/com/taskboard/taskboard/entities/Board.java:64-65 | Board(): every field null, an empty category set |
| Entities.Board.Required | src/main/java/com/taskboard/taskboard/entities/Board.java:73-76 | Board(name, user) sets the owner field without adding the board to the owner's set |
| Entities.Board.Full | src/main/java/com/taskboard/taskboard/entities/Board.java:85-89 | Board(name, description, user) likewise leaves the owner's set untouched |
| Entities.Board.Equals | src/main/java/com/taskboard/taskboard/entities/Board.java:209-217 | equals holds exactly for a non-null board with the same id; two boards with null ids are equal |
| Entities.Board.AddCategory | src/main/java/com/taskboard/taskboard/entities/Board.java:96-101 | a category whose id is already held changes nothing; otherwise it is inserted and its board becomes this board; distinct ids are kept |
| Entities.Board.RemoveCategory | src/main/java/com/taskboard/taskboard/entities/Board.java:108-113 | a held category is removed (by id) and its board becomes null; otherwise nothing changes |
| Entities.Board.SetUser | src/main/java/com/taskboard/taskboard/entities/Board.java:146-156 | a user equal by id is a no-op; otherwise the owner becomes the new user, the board leaves the old owner's set and is in the new owner's set |
| Entities.Board.SetCategories | src/main/java/com/taskboard/taskboard/entities/Board.java:167-174 | the set becomes exactly the given categories (empty for null), each pointing back to this board; categories dropped by clear() keep their stale board reference |
| Entities.Board.OnCreate | src/main/java/com/taskboard/taskboard/entities/Board.java:185-188 | @PrePersist stamps createdAt with now |
| Entities.Board.OnUpdate | src/main/java/com/taskboard/taskboard/entities/Board.java:191-194 | @PreUpdate stamps updatedAt with now |
| Entities.Category.Default | src/main/java/com/taskboard/taskboard/entities/Category.java:64-65 | Category(): every field null, an empty task set |
| Entities.Category.Required | src/main/java/com/taskboard/taskboard/entities/Category.java:73-76 | Category(name, board) sets the board field without adding itself to the board's set |
| Entities.Category.Equals | src/main/java/com/taskboard/taskboard/entities/Category.java:194-202 | equals holds exactly for a non-null category with the same id; two categories with null ids are equal |
| Entities.Category.AddTask | src/main/java/com/taskboard/taskboard/entities/Category.java:83-88 | a task whose id is already held changes nothing; otherwise it is inserted and its category becomes this one, after which the inner contains stops the recursion |
| Entities.Category.RemoveTask | src/main/java/com/taskboard/taskboard/entities/Category.java:95-100 | a held task is removed (by id) and its category becomes null; otherwise nothing changes |
| Entities.Category.SetBoard | src/main/java/com/taskboard/taskboard/entities/Category.java:135-141 | the board field becomes the given board, whose set then holds this category's id; the previous board's set is not touched |
| Entities.Category.SetTasks | src/main/java/com/taskboard/taskboard/entities/Category.java:152-160 | the set becomes exactly the given tasks (empty for null), each pointing back to this category; tasks dropped by clear() keep their stale category |
| Entities.Task.Default | src/main/java/com/taskboard/taskboard/entities/Task.java:89-90 | Task(): every field null |
| Entities.Task.Required | src/main/java/com/taskboard/taskboard/entities/Task.java:98-101 | Task(name, category) leaves the id null and does not touch the category's task set |
| Entities.Task.Full | src/main/java/com/taskboard/taskboard/entities/Task.java:113-121 | the six-argument constructor stores each field, leaves the id null and does not touch the category's task set |
| Entities.Task.Equals | src/main/java/com/taskboard/taskboard/entities/Task.java:225-233 | equals holds exactly for a non-null task with the same id; two tasks with null ids are equal |
| Entities.Task.SetName | src/main/java/com/taskboard/taskboard/entities/Task.java:133-135 | setName replaces the name and no other field |
| Entities.Task.SetDescription | src/main/java/com/taskboard/taskboard/entities/Task.java:141-143 | setDescription replaces the description and no other field |
| Entities.Task.SetStatus | src/main/java/com/taskboard/taskboard/entities/Task.java:149-151 | setStatus replaces the status (one of the three enum values or null) and no other field |
| Entities.Task.SetPriority | src/main/java/com/taskboard/taskboard/entities/Task.java:157-159 | setPriority replaces the priority and no other field |
| Entities.Task.SetDueDate | src/main/java/com/taskboard/taskboard/entities/Task.java:165-167 | setDueDate replaces the due date and no other field |
| Entities.Task.SetCategory | src/main/java/com/taskboard/taskboard/entities/Task.java:179-185 | the category field becomes the given category, whose set then holds this task's id; the previous category's set is not touched |
| Entities.Task.OnCreate | src/main/java/com/taskboard/taskboard/entities/Task.java:196-199 | @PrePersist is the only writer of createdAt and stamps it with now |
| Entities.Task.OnUpdate | src/main/java/com/taskboard/taskboard/entities/Task.java:202-205 | @PreUpdate is the only writer of updatedAt and stamps it with now |
| TaskService.CheckTask | src/main/java/com/taskboard/taskboard/services/TaskService.java:291-300 | validateTask passes exactly for a non-blank name, a due date not in the past and a non-null category; the name failure comes first, then the due date, then the category |
| TaskService.WithDefaults | src/main/java/com/taskboard/taskboard/services/TaskService.java:196-197 | a null status becomes PENDING and a null priority MEDIUM; supplied values and every other field are kept |
| TaskService.CreateTaskGuard | src/main/java/com/taskboard/taskboard/services/TaskService.java:187-200 | createTask proceeds exactly when the id is null, validateTask passes and the category id names a stored category; a present id is refused first |
| TaskService.NewTaskRow | src/main/java/com/taskboard/taskboard/services/TaskService.java:196-199 | the inserted row carries the task's fields, the defaults, the category, createdAt = now and no updatedAt |
| TaskService.Merge | src/main/java/com/taskboard/taskboard/services/TaskService.java:210-214 | updateTask's merge never changes the category or the timestamps (which values it copies is stated by MergeTakesPresentValues) |
| TaskService.UpdateTaskGuard | src/main/java/com/taskboard/taskboard/services/TaskService.java:205-218 | updateTask proceeds exactly when the task exists and the merged task has a non-blank name and a due date not in the past; a failed lookup is reported as such |
| TaskService.SavedTask | src/main/java/com/taskboard/taskboard/services/TaskService.java:217 | the saved row is the merge, with updatedAt stamped only when the merge changed something |
| TaskService.CreateTask | src/main/java/com/taskboard/taskboard/services/TaskService.java:187-200 | fails exactly when the guard fails, with its error and the store untouched; otherwise inserts one new row under a fresh id and changes nothing else |
| TaskService.UpdateTask | src/main/java/com/taskboard/taskboard/services/TaskService.java:205-218 | fails exactly when the guard fails, store untouched; otherwise replaces only that task's row with the saved merge |
| TaskService.DeleteTask | src/main/java/com/taskboard/taskboard/services/TaskService.java:223-227 | succeeds exactly for an existing task and deletes only that row; otherwise reports the lookup failure |
| TaskService.RowsInCategory | src/main/java/com/taskboard/taskboard/repositories/TaskRepository.java:91 | the bulk update's WHERE matches one row exactly when the task exists and lies in the given category, otherwise none |
| TaskService.InCategoryGuard | src/main/java/com/taskboard/taskboard/services/TaskService.java:233-242 | the checks of updateTaskName/Description pass exactly when the value passes, the task and the category exist, and the task is in that category; a task in another category gives the zero-rows failure |
| TaskService.UpdateTaskName | src/main/java/com/taskboard/taskboard/services/TaskService.java:233-242 | result equals the guard; on success only that task's name changes (no updatedAt stamp, the bulk update bypasses @PreUpdate); on failure nothing changes |
| TaskService.UpdateTaskDescription | src/main/java/com/taskboard/taskboard/services/TaskService.java:247-256 | as UpdateTaskName for the description, where null fails by dereference and any non-null value passes |
| TaskService.UpdateTaskStatus | src/main/java/com/taskboard/taskboard/services/TaskService.java:261-270 | succeeds exactly for a non-null status on an existing task (the WHERE is by id alone); only that task's status changes |
| TaskService.OverdueIsNotCompleted | src/main/java/com/taskboard/taskboard/services/TaskService.java:275-286 | isTaskOverdue and isTaskCompleted never hold together |
| TaskService.AcceptedTaskIsNotOverdue | src/main/java/com/taskboard/taskboard/services/TaskService.java:275-279 | a task validateTask accepts at some instant is not overdue at that instant |
| TaskService.OverdueStaysOverdue | src/main/java/com/taskboard/taskboard/services/TaskService.java:275-279 | an overdue task stays overdue at every later instant |
| TaskService.CreatedTaskHasStatusAndPriority | src/main/java/com/taskboard/taskboard/services/TaskService.java:196-197 | the row createTask inserts always has a status and a priority, and keeps supplied ones |
| TaskService.EmptyMergeKeepsRow | src/main/java/com/taskboard/taskboard/services/TaskService.java:210-217 | an update carrying only nulls leaves the stored row exactly as it was, updatedAt included |
| TaskService.MergeIsIdempotent | src/main/java/com/taskboard/taskboard/services/TaskService.java:210-214 | merging the same incoming task twice equals merging it once |
| TaskService.MergeTakesPresentValues | src/main/java/com/taskboard/taskboard/services/TaskService.java:210-214 | each non-null incoming name, description, status, priority and due date wins the merge, and each null one keeps the stored value |
| TaskService.StalePastDueDateBlocksUpdate | src/main/java/com/taskboard/taskboard/services/TaskService.java:216 | a stored due date already past blocks every update that supplies no new due date |
| TaskService.PastDueDateRejectedOnUpdate | src/main/java/com/taskboard/taskboard/services/TaskService.java:331-335 | a supplied due date before now is refused by both createTask and updateTask |
| CategoryService.CheckCategory | src/main/java/com/taskboard/taskboard/services/CategoryService.java:248-252 | validateCategory passes exactly for a non-blank name, a non-null board and a non-null description; in that order of failure, the last by null dereference |
| CategoryService.CreateCategoryGuard | src/main/java/com/taskboard/taskboard/services/CategoryService.java:161-169 | createCategory proceeds exactly when the id is null, validateCategory passes and the board id names a stored board |
| CategoryService.NewCategoryRow | src/main/java/com/taskboard/taskboard/services/CategoryService.java:161-169 | the inserted row carries the name, description and board, createdAt = now and no updatedAt |
| CategoryService.UpdateCategoryGuard | src/main/java/com/taskboard/taskboard/services/CategoryService.java:174-184 | updateCategory proceeds exactly when the category exists, the incoming one validates and its board exists; the lookup failure comes first |
| CategoryService.Overwrite | src/main/java/com/taskboard/taskboard/services/CategoryService.java:180-183 | only name and board are replaced; description and createdAt stay; updatedAt is stamped exactly when something changed |
| CategoryService.AttachedTask | src/main/java/com/taskboard/taskboard/services/CategoryService.java:228-233 | the cascaded task row holds all of the incoming task's fields, under this category |
| CategoryService.AddTaskGuard | src/main/java/com/taskboard/taskboard/services/CategoryService.java:228-233 | addTask succeeds exactly when the category exists and the task is either already held or has a name and a null or stored id |
| CategoryService.CreateCategory | src/main/java/com/taskboard/taskboard/services/CategoryService.java:161-169 | fails exactly when the guard fails, store untouched; otherwise inserts one new row under a fresh id |
| CategoryService.UpdateCategory | src/main/java/com/taskboard/taskboard/services/CategoryService.java:174-184 | fails exactly when the guard fails, store untouched; otherwise replaces only that row with the overwrite, tasks untouched |
| CategoryService.UpdateCategoryName | src/main/java/com/taskboard/taskboard/services/CategoryService.java:189-198 | succeeds exactly for a valid name on an existing category (WHERE by id, CategoryRepository.java:98); only the name changes |
| CategoryService.UpdateCategoryDescription | src/main/java/com/taskboard/taskboard/services/CategoryService.java:203-213 | succeeds exactly for a non-null description on an existing category of the given board (WHERE id and board, CategoryRepository.java:106); a category on another board gives the zero-rows failure |
| CategoryService.DeleteCategory | src/main/java/com/taskboard/taskboard/services/CategoryService.java:218-223 | succeeds exactly for an existing category and deletes it with its tasks |
| CategoryService.AddTask | src/main/java/com/taskboard/taskboard/services/CategoryService.java:228-233 | fails exactly when the guard fails, store untouched; on success the task is in the category: a held task changes nothing, a null id inserts it under a fresh id, a stored id moves it here with all fields overwritten and updatedAt stamped |
| CategoryService.RemoveTask | src/main/java/com/taskboard/taskboard/services/CategoryService.java:238-243 | succeeds exactly when the category exists; afterwards the task is not in the category; a held task is deleted as an orphan, anything else changes nothing |
| CategoryService.GetTasksByCategory | src/main/java/com/taskboard/taskboard/services/CategoryService.java:85-92 | succeeds exactly when the board exists; then the map has one key per category of the board and maps each to exactly that category's tasks |
| CategoryService.NullDescriptionIsRefused | src/main/java/com/taskboard/taskboard/services/CategoryService.java:251 | a null description makes both createCategory and updateCategory fail whatever else the category holds |
| CategoryService.AnyDescriptionIsAccepted | src/main/java/com/taskboard/taskboard/services/CategoryService.java:266-270 | any non-null description, blank included, passes validateCategory's description rule |
| CategoryService.OverwriteIsIdempotent | src/main/java/com/taskboard/taskboard/services/CategoryService.java:180-183 | overwriting with the stored values changes nothing, and overwriting twice equals overwriting once |
| CategoryService.TaskListsAreDisjoint | src/main/java/com/taskboard/taskboard/services/CategoryService.java:85-92 | the task sets of two different categories never share a task |
| CategoryService.EveryTaskOfTheBoardIsListed | src/main/java/com/taskboard/taskboard/services/CategoryService.java:85-92 | in a consistent store every task of any category of the board appears in the map |
| CategoryService.AddTaskTwiceIsNoOp | src/main/java/com/taskboard/taskboard/services/CategoryService.java:228-233 | a task the category already holds is accepted again without change |
| BoardService.CheckBoard | src/main/java/com/taskboard/taskboard/services/BoardService.java:230-237 | validateBoard passes exactly for a non-blank name and a non-null user; the description is never checked |
| BoardService.CreateBoardGuard | src/main/java/com/taskboard/taskboard/services/BoardService.java:145-153 | createBoard proceeds exactly when the id is null, the board validates and its user id names a stored user |
| BoardService.NewBoardRow | src/main/java/com/taskboard/taskboard/services/BoardService.java:145-153 | the inserted row carries name, description and owner, createdAt = now and no updatedAt |
| BoardService.UpdateBoardGuard | src/main/java/com/taskboard/taskboard/services/BoardService.java:158-169 | updateBoard proceeds exactly when the board exists, the incoming board validates and its user exists; the lookup failure comes first |
| BoardService.MergeBoard | src/main/java/com/taskboard/taskboard/services/BoardService.java:164-166 | the merge always installs the incoming user as owner and keeps the timestamps; which name and description win is stated by MergeBoardTakesPresentName and MergeBoardKeepsAbsentDescription |
| BoardService.SavedBoard | src/main/java/com/taskboard/taskboard/services/BoardService.java:164-168 | the saved row is the merge, with updatedAt stamped only when it changed something |
| BoardService.AttachedCategory | src/main/java/com/taskboard/taskboard/services/BoardService.java:210-215 | the cascaded category row holds the incoming category's name and description, under this board |
| BoardService.AddCategoryGuard | src/main/java/com/taskboard/taskboard/services/BoardService.java:210-215 | addCategoryToBoard succeeds exactly when the board exists and the category is either already held or has a name and a null or stored id |
| BoardService.CreateBoard | src/main/java/com/taskboard/taskboard/services/BoardService.java:145-153 | fails exactly when the guard fails, store untouched; otherwise inserts one new row under a fresh id |
| BoardService.UpdateBoard | src/main/java/com/taskboard/taskboard/services/BoardService.java:158-169 | fails exactly when the guard fails, store untouched; returns the merge under the new owner. With the same owner (id-equal, src/main/java/com/taskboard/taskboard/entities/Board.java:147-149) only that board's row is replaced, categories and tasks untouched. With a different owner the old owner's orphan-removing set drops the board (src/main/java/com/taskboard/taskboard/entities/User.java:43), so the board, its categories and their tasks are deleted |
| BoardService.UpdateBoardName | src/main/java/com/taskboard/taskboard/services/BoardService.java:174-183 | succeeds exactly for a valid name on an existing board (WHERE by id, BoardRepository.java:96); only the name changes |
| BoardService.UpdateBoardDescription | src/main/java/com/taskboard/taskboard/services/BoardService.java:188-197 | succeeds exactly for a non-null description on an existing board; null fails by dereference; only the description changes |
| BoardService.DeleteBoard | src/main/java/com/taskboard/taskboard/services/BoardService.java:202-205 | a null id fails; a missing id is silently ignored; otherwise the board is deleted with its categories and their tasks |
| BoardService.AddCategoryToBoard | src/main/java/com/taskboard/taskboard/services/BoardService.java:210-215 | fails exactly when the guard fails, store untouched; on success the category is on the board: a held one changes nothing, a null id inserts it, a stored id moves it here with its fields overwritten and updatedAt stamped, and its stored tasks are deleted as orphans of the replaced task set (src/main/java/com/taskboard/taskboard/entities/Category.java:52) |
| BoardService.RemoveCategoryFromBoard | src/main/java/com/taskboard/taskboard/services/BoardService.java:220-225 | succeeds exactly when the board exists; afterwards the category is not on it; a held category is deleted as an orphan with its tasks |
| BoardService.DescriptionIsNotRequired | src/main/java/com/taskboard/taskboard/services/BoardService.java:230-237 | a board createBoard accepts is still accepted with its description removed |
| BoardService.MergeBoardIsIdempotent | src/main/java/com/taskboard/taskboard/services/BoardService.java:164-166 | merging the same incoming board twice equals merging it once |
| BoardService.MergeBoardTakesPresentName | src/main/java/com/taskboard/taskboard/services/BoardService.java:164 | a null incoming name keeps the stored one; a present one replaces it |
| BoardService.MergeBoardKeepsAbsentDescription | src/main/java/com/taskboard/taskboard/services/BoardService.java:164-166 | a null incoming description keeps the stored one; a present one replaces it |
| BoardService.DeletedBoardLeavesNoTrace | src/main/java/com/taskboard/taskboard/entities/Board.java:52 | after deleting a board no category names it and no task lies in one of its former categories |
| BoardService.DeleteBoardIsIdempotent | src/main/java/com/taskboard/taskboard/services/BoardService.java:202-205 | deleting a board twice equals deleting it once |
| BoardService.AddCategoryTwiceIsNoOp | src/main/java/com/taskboard/taskboard/services/BoardService.java:210-215 | a category the board already holds is accepted again without change |
| UserService.CheckUser | src/main/java/com/taskboard/taskboard/services/UserService.java:210-213 | validateUserFields passes exactly when both the username and the email rules pass; the username failure comes first |
| UserService.CheckUnique | src/main/java/com/taskboard/taskboard/services/UserService.java:233-249 | checkUniqueConstraints passes exactly when neither the username nor the email is held by any stored user |
| UserService.CreateUserGuard | src/main/java/com/taskboard/taskboard/services/UserService.java:135-143 | createUser proceeds exactly when the id is null, the fields validate and neither value is already taken |
| UserService.NewUserRow | src/main/java/com/taskboard/taskboard/services/UserService.java:135-143 | the inserted row carries the username and email, createdAt = now and no updatedAt |
| UserService.UpdateUserGuard | src/main/java/com/taskboard/taskboard/services/UserService.java:148-165 | updateUser proceeds exactly when the user exists, validates, and each value that differs from the stored one is not taken |
| UserService.SavedUser | src/main/java/com/taskboard/taskboard/services/UserService.java:162-164 | both fields are overwritten; createdAt stays; updatedAt is stamped exactly when something changed |
| UserService.CreateUser | src/main/java/com/taskboard/taskboard/services/UserService.java:135-143 | fails exactly when the guard fails, store untouched; otherwise inserts one new row under a fresh id, keeping usernames and emails unique |
| UserService.UpdateUser | src/main/java/com/taskboard/taskboard/services/UserService.java:148-165 | fails exactly when the guard fails, store untouched; otherwise replaces only that user's row |
| UserService.UpdateUsername | src/main/java/com/taskboard/taskboard/services/UserService.java:170-179 | succeeds exactly for a valid username on an existing user that no other user holds; a clash is not checked by the service and surfaces as a unique-column failure |
| UserService.UpdateEmail | src/main/java/com/taskboard/taskboard/services/UserService.java:184-193 | as UpdateUsername for the email |
| UserService.DeleteUser | src/main/java/com/taskboard/taskboard/services/UserService.java:198-205 | succeeds exactly for an existing user owning no board and removes only that row; a user with boards is refused |
| UserService.ShortUsernameIsRefused | src/main/java/com/taskboard/taskboard/services/UserService.java:219-221 | a username shorter than three characters is refused |
| UserService.PaddedUsernameIsAccepted | src/main/java/com/taskboard/taskboard/services/UserService.java:215-222 | the length rule counts untrimmed characters, so " a " passes |
| UserService.OwnValuesAreNeverTaken | src/main/java/com/taskboard/taskboard/services/UserService.java:154-160 | re-saving a user's own username and email is never reported as taken |
| UserService.TakenUsernameRefusedBothWays | src/main/java/com/taskboard/taskboard/services/UserService.java:170-179 | a username another user holds is refused by updateUser as taken and by updateUsername only at the unique column |
| Text.IsBlank | src/main/java/com/taskboard/taskboard/services/UserService.java:216 | `s.trim().isEmpty()` holds exactly when every character of s is one that trim() strips |
| Entities.IdHash | src/main/java/com/taskboard/taskboard/entities/Board.java:221-223 | Objects.hash(id) in 32-bit arithmetic: a null id hashes to 31, and so does id 0; hash equality does not imply equality |
| Entities.SameUser | src/main/java/com/taskboard/taskboard/entities/Board.java:147 | Objects.equals(a, b) on users: the same reference (both null included), or a non-null a whose equals accepts b |
| Entities.User.HashCode | src/main/java/com/taskboard/taskboard/entities/User.java:188-190 | hashCode depends on the id alone; every unsaved user hashes to 31 |
| Entities.Board.HashCode | src/main/java/com/taskboard/taskboard/entities/Board.java:221-223 | hashCode depends on the id alone; every unsaved board hashes to 31 |
| Entities.Category.HashCode | src/main/java/com/taskboard/taskboard/entities/Category.java:206-208 | hashCode depends on the id alone; every unsaved category hashes to 31 |
| Entities.Task.HashCode | src/main/java/com/taskboard/taskboard/entities/Task.java:237-239 | hashCode depends on the id alone; every unsaved task hashes to 31 |
| Store.UsernameTaken | src/main/java/com/taskboard/taskboard/repositories/UserRepository.java:35 | existsByUsername is false exactly when no stored user holds the username |
| Store.EmailTaken | src/main/java/com/taskboard/taskboard/repositories/UserRepository.java:40 | existsByEmail is false exactly when no stored user holds the email |
| Store.NewUsernameFree | src/main/java/com/taskboard/taskboard/entities/User.java:34-35 | with the unique columns in force, a user can take a new username exactly when no other user holds it |
| Store.NewEmailFree | src/main/java/com/taskboard/taskboard/entities/User.java:38-39 | with the unique columns in force, a user can take a new email exactly when no other user holds it |
| Store.Database.PutUser | src/main/java/com/taskboard/taskboard/services/UserService.java:142 | save of a user row whose username and email no other user holds: only that row is written, and foreign keys and unique columns stay intact |
| Store.Database.PutBoard | src/main/java/com/taskboard/taskboard/services/BoardService.java:152 | save of a board row whose owner exists: only that row is written and the store stays valid |
| Store.Database.PutCategory | src/main/java/com/taskboard/taskboard/services/CategoryService.java:168 | save of a category row whose board exists: only that row is written and the store stays valid |
| Store.Database.PutTask | src/main/java/com/taskboard/taskboard/services/TaskService.java:199 | save of a task row whose category exists: only that row is written and the store stays valid |
| TaskService.IsTaskOverdue | src/main/java/com/taskboard/taskboard/services/TaskService.java:275-279 | isTaskOverdue holds exactly when the due date would fail validateDueDate at now and the task is not COMPLETED |
| TaskService.IsTaskCompleted | src/main/java/com/taskboard/taskboard/services/TaskService.java:284-286 | isTaskCompleted is null-safe: a null status is never completed, and a completed task has a status that passes validateStatus |

## Left out

- Controllers, the repository query methods (JPQL and native SQL searches, counts, orderings) and the application bootstrap: they forward to the services or run inside the database. Only their argument guards are modelled (`Checks`).
- getTasksCreatedBetween, getCategoriesByName, getCategoriesCreatedAfter, getBoardsWithMinCategories, getBoardsCreatedAfter, getBoardsWithMoreThanXTasks, getUsersByUsernameContains, getUsersByEmailDomain, getUsernamesWithMoreThanXBoards: only their argument checks are modelled; the query results come from the database.
- getUserByUsername, getUserByEmail and the other read-only lookups that only call a repository: they have no rule of their own.
- Bean validation (`@NotBlank`, column lengths) and `@JsonIgnoreProperties`: enforced by frameworks, not by this code.
- Exception messages: only the kind of failure is modelled.
- `@Transactional`: modelled as "a failed call leaves the tables unchanged".
- Id generation: one generator shared by the four tables instead of one identity column per table. The 64-bit range of `Long` ids is not enforced, except inside `IdHash`.
- Time: `LocalDateTime.now()` is an integer parameter.
- Result order of lists and of the `HashMap` built by getTasksByCategory: the model returns sets and a map.
- Entity fields that services receive are flattened into values (`TaskData`, `CategoryData`, `BoardData`, `UserData`). Children carried by those objects are taken to be empty, which is what a request body without them gives. This covers a category's task set handed to createCategory or addCategoryToBoard, and a board's categories handed to createBoard. So a carried child is never inserted or merged. A category moved by addCategoryToBoard loses all of its stored tasks; if it carried some of them, Java would keep those.
- Java's "different class" branch of `equals`: the Dafny types already exclude it.
- Null-pointer paths inside entity methods (a null argument to addBoard or addTask, a user whose board set is null): excluded by non-null types and `requires`.
- Entities.User.SetBoards: does not state that each board dropped from a previous owner's set shares its id with a member of the new set (the frame reasoning for it is too costly); it states only that those sets shrink.
- Entities.User.SetBoards: two cases of the loop are excluded by `requires`. The first is a previous owner whose board set is null: Board.setUser would throw a NullPointerException. The second is a previous owner whose set is the new set itself: Board.setUser removes the board from the set being iterated, which can raise a `ConcurrentModificationException`. A null argument is not excluded: like Java, the model keeps it and changes no board.
- The timestamp hooks of `User` and `Category` objects: modelled only on stored rows (`createdAt` on insert, `updatedAt` when a saved row changes).
- Plain getters, and the setters of `User`, `Board` and `Category` other than those listed: they assign one field.
- `toString` and `HashSet`/`HashMap` internals.
- Entities.Board.SetCategories: takes the new members as a value set, so the aliased call `setCategories(getCategories())` is not modelled. In Java, `clear()` there also empties the argument, and the board ends with no categories.
- Entities.Category.SetTasks: the same aliasing case, `setTasks(getTasks())`, is not modelled.
- Not-found failures: `Store.Failure.NotFound` stands for both `getXById`'s RuntimeException and the IllegalArgumentException of `updateTask`'s own lookup. `NullId` likewise stands for whatever exception `findById(null)` raises. Only the failure kind is modelled, not the exception class.
- Checks.CheckUsername: Java's `length()` counts UTF-16 code units, while the model counts Unicode characters. A username with a character outside the Basic Multilingual Plane, such as "😀a", has Java length 3 and passes in Java, but is refused by the model. Strings are sequences of Unicode characters, and no UTF-16 encoding is modelled.
- CategoryService.AddTaskGuard: assumes Hibernate 6.6 or later. There, cascading a merge of an entity whose id no row has fails (modelled as `PersistenceFailure`). Hibernate 6.0 to 6.5 would insert it as a new row under a fresh id instead. The source does not pin the version.
- BoardService.AddCategoryGuard: makes the same Hibernate 6.6 assumption for a category whose id no row has.
