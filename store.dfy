/**
 * The persisted state the services work on: one id-keyed table per entity, with a foreign key
 * from each child row to its parent row (the @ManyToOne join columns, all NOT NULL), the unique
 * username and email columns of the user table, and the cascades declared on the parent side
 * (CascadeType.ALL with orphanRemoval on User.boards, Board.categories and Category.tasks).
 *
 * Every service call loads its entities afresh, so a parent's collection is exactly the set of
 * rows whose foreign key names it; the store keeps only the foreign keys.
 */
module Store {
  import opened Wrappers
  import opened Entities

  /** The columns of one `users` row. */
  datatype UserRow = UserRow(username: string, email: string, createdAt: int, updatedAt: Option<int>)

  /** The columns of one `boards` row; `owner` is the user_id join column. */
  datatype BoardRow = BoardRow(name: string, description: Option<string>, owner: int,
                               createdAt: int, updatedAt: Option<int>)

  /** The columns of one `categories` row; `board` is the board_id join column. */
  datatype CategoryRow = CategoryRow(name: string, description: Option<string>, board: int,
                                     createdAt: int, updatedAt: Option<int>)

  /** The columns of one `tasks` row; `category` is the category_id join column. */
  datatype TaskRow = TaskRow(name: string, description: Option<string>, status: Option<TaskStatus>,
                             priority: Option<TaskPriority>, dueDate: Option<int>, category: int,
                             createdAt: int, updatedAt: Option<int>)

  datatype Tables = Tables(users: map<int, UserRow>, boards: map<int, BoardRow>,
                           categories: map<int, CategoryRow>, tasks: map<int, TaskRow>)

  /** Why a service call throws instead of returning. */
  datatype Failure =
    | IdPresent                // a "new" entity already carries an id
    | Invalid(field: Field)    // IllegalArgumentException from a validator or argument guard
    | NullId                   // findById or deleteById called with a null id
    | NotFound                 // RuntimeException: no row with that id
    | NullDereference          // NullPointerException
    | Taken                    // username or email already in use
    | OwnsBoards               // deleteUser on a user that still owns boards
    | NothingUpdated           // a bulk update reported zero rows
    | PersistenceFailure       // the database or the persistence provider refuses the flush

  /** The value an IllegalArgumentException complains about. */
  datatype Field =
    | Name | Description | Owner | ParentBoard | ParentCategory | Status | Priority | DueDate
    | Username | Email | Threshold | Date | Keyword | Domain

  /** A reference from an entity object to its parent: null, or an entity with a (nullable) id. */
  datatype Parent = Null | Ref(id: Option<int>)

  /** The fields of a User object handed to a service. */
  datatype UserData = UserData(id: Option<int>, username: Option<string>, email: Option<string>)

  /** The fields of a Board object handed to a service. */
  datatype BoardData = BoardData(id: Option<int>, name: Option<string>, description: Option<string>, user: Parent)

  /** The fields of a Category object handed to a service. */
  datatype CategoryData = CategoryData(id: Option<int>, name: Option<string>, description: Option<string>,
                                       board: Parent)

  /** The fields of a Task object handed to a service. */
  datatype TaskData = TaskData(id: Option<int>, name: Option<string>, description: Option<string>,
                               status: Option<TaskStatus>, priority: Option<TaskPriority>,
                               dueDate: Option<int>, category: Parent)

  /** Every foreign key names an existing row. */
  ghost predicate Linked(t: Tables) {
    && (forall b :: b in t.boards ==> t.boards[b].owner in t.users)
    && (forall c :: c in t.categories ==> t.categories[c].board in t.boards)
    && (forall k :: k in t.tasks ==> t.tasks[k].category in t.categories)
  }

  /** The unique constraints on users.username and users.email. */
  ghost predicate UniqueAccounts(users: map<int, UserRow>) {
    forall i, j :: i in users && j in users && i != j ==>
      users[i].username != users[j].username && users[i].email != users[j].email
  }

  ghost predicate Consistent(t: Tables) {
    Linked(t) && UniqueAccounts(t.users)
  }

  /** findById on the users table. */
  function FindUser(t: Tables, id: Option<int>): (r: Result<UserRow, Failure>)
    ensures r.Success? <==> id.Some? && id.value in t.users
    ensures r.Success? ==> r.value == t.users[id.value]
    ensures r.Failure? ==> (r.error == NullId <==> id.None?) && (r.error == NotFound <==> id.Some?)
  {
    if id.None? then Failure(NullId)
    else if id.value !in t.users then Failure(NotFound)
    else Success(t.users[id.value])
  }

  /** findById on the boards table. */
  function FindBoard(t: Tables, id: Option<int>): (r: Result<BoardRow, Failure>)
    ensures r.Success? <==> id.Some? && id.value in t.boards
    ensures r.Success? ==> r.value == t.boards[id.value]
    ensures r.Failure? ==> (r.error == NullId <==> id.None?) && (r.error == NotFound <==> id.Some?)
  {
    if id.None? then Failure(NullId)
    else if id.value !in t.boards then Failure(NotFound)
    else Success(t.boards[id.value])
  }

  /** findById on the categories table. */
  function FindCategory(t: Tables, id: Option<int>): (r: Result<CategoryRow, Failure>)
    ensures r.Success? <==> id.Some? && id.value in t.categories
    ensures r.Success? ==> r.value == t.categories[id.value]
    ensures r.Failure? ==> (r.error == NullId <==> id.None?) && (r.error == NotFound <==> id.Some?)
  {
    if id.None? then Failure(NullId)
    else if id.value !in t.categories then Failure(NotFound)
    else Success(t.categories[id.value])
  }

  /** findById on the tasks table. */
  function FindTask(t: Tables, id: Option<int>): (r: Result<TaskRow, Failure>)
    ensures r.Success? <==> id.Some? && id.value in t.tasks
    ensures r.Success? ==> r.value == t.tasks[id.value]
    ensures r.Failure? ==> (r.error == NullId <==> id.None?) && (r.error == NotFound <==> id.Some?)
  {
    if id.None? then Failure(NullId)
    else if id.value !in t.tasks then Failure(NotFound)
    else Success(t.tasks[id.value])
  }

  /** existsByUsername */
  predicate UsernameTaken(t: Tables, username: string): (r: bool)
    ensures !r <==> forall k :: k in t.users ==> t.users[k].username != username
  {
    exists k :: k in t.users && t.users[k].username == username
  }

  /** existsByEmail */
  predicate EmailTaken(t: Tables, email: string): (r: bool)
    ensures !r <==> forall k :: k in t.users ==> t.users[k].email != email
  {
    exists k :: k in t.users && t.users[k].email == email
  }

  /** The ids of the boards a user owns: what User.getBoards() loads. */
  function BoardsOf(t: Tables, user: int): (r: set<int>)
    ensures forall b :: b in r <==> b in t.boards && t.boards[b].owner == user
  {
    set b | b in t.boards && t.boards[b].owner == user
  }

  /** The ids of the categories on a board: what Board.getCategories() loads. */
  function CategoriesOf(t: Tables, board: int): (r: set<int>)
    ensures forall c :: c in r <==> c in t.categories && t.categories[c].board == board
  {
    set c | c in t.categories && t.categories[c].board == board
  }

  /** The ids of the tasks in a category: what Category.getTasks() loads. */
  function TasksOf(t: Tables, category: int): (r: set<int>)
    ensures forall k :: k in r <==> k in t.tasks && t.tasks[k].category == category
  {
    set k | k in t.tasks && t.tasks[k].category == category
  }

  /** Writing a task row whose category exists keeps the store consistent. */
  lemma PutTaskKeepsConsistent(t: Tables, k: int, row: TaskRow)
    requires Consistent(t) && row.category in t.categories
    ensures Consistent(t.(tasks := t.tasks[k := row]))
  {
  }

  /** Writing a category row whose board exists keeps the store consistent. */
  lemma PutCategoryKeepsConsistent(t: Tables, k: int, row: CategoryRow)
    requires Consistent(t) && row.board in t.boards
    ensures Consistent(t.(categories := t.categories[k := row]))
  {
  }

  /** Writing a board row whose owner exists keeps the store consistent. */
  lemma PutBoardKeepsConsistent(t: Tables, k: int, row: BoardRow)
    requires Consistent(t) && row.owner in t.users
    ensures Consistent(t.(boards := t.boards[k := row]))
  {
  }

  /** No user other than k holds this username or this email. */
  predicate FreeFor(users: map<int, UserRow>, k: int, row: UserRow) {
    forall j :: j in users && j != k ==> users[j].username != row.username && users[j].email != row.email
  }

  /** Under unique columns, a user may take a new username exactly when no other user holds it. */
  lemma NewUsernameFree(users: map<int, UserRow>, k: int, username: string)
    requires UniqueAccounts(users) && k in users
    ensures FreeFor(users, k, users[k].(username := username)) <==>
              forall j :: j in users && j != k ==> users[j].username != username
  {
  }

  /** Under unique columns, a user may take a new email exactly when no other user holds it. */
  lemma NewEmailFree(users: map<int, UserRow>, k: int, email: string)
    requires UniqueAccounts(users) && k in users
    ensures FreeFor(users, k, users[k].(email := email)) <==>
              forall j :: j in users && j != k ==> users[j].email != email
  {
  }

  /** Writing a user row that clashes with no other user keeps the store consistent. */
  lemma PutUserKeepsConsistent(t: Tables, k: int, row: UserRow)
    requires Consistent(t) && FreeFor(t.users, k, row)
    ensures Consistent(t.(users := t.users[k := row]))
  {
  }

  /** Deleting a task row. */
  function DeleteTaskRow(t: Tables, k: int): (r: Tables)
    ensures r == t.(tasks := t.tasks - {k})
    ensures Consistent(t) ==> Consistent(r)
  {
    t.(tasks := t.tasks - {k})
  }

  /** Deleting a category row; the cascade on Category.tasks deletes its tasks with it. */
  function DeleteCategoryRow(t: Tables, k: int): (r: Tables)
    ensures r.users == t.users && r.boards == t.boards
    ensures r.categories == t.categories - {k}
    ensures forall j :: j in r.tasks <==> j in t.tasks && t.tasks[j].category != k
    ensures forall j :: j in r.tasks ==> r.tasks[j] == t.tasks[j]
    ensures Consistent(t) ==> Consistent(r)
  {
    t.(categories := t.categories - {k},
       tasks := map j | j in t.tasks && t.tasks[j].category != k :: t.tasks[j])
  }

  /**
   * Orphan removal on Category.tasks when a category's task set is replaced by an empty one:
   * the category stays, its tasks go.
   */
  function ClearTasks(t: Tables, c: int): (r: Tables)
    ensures r.users == t.users && r.boards == t.boards && r.categories == t.categories
    ensures forall j :: j in r.tasks <==> j in t.tasks && t.tasks[j].category != c
    ensures forall j :: j in r.tasks ==> r.tasks[j] == t.tasks[j]
    ensures TasksOf(r, c) == {}
    ensures Consistent(t) ==> Consistent(r)
  {
    t.(tasks := map j | j in t.tasks && t.tasks[j].category != c :: t.tasks[j])
  }

  /** Deleting a board row; the cascades delete its categories and their tasks. */
  function DeleteBoardRow(t: Tables, k: int): (r: Tables)
    ensures r.users == t.users && r.boards == t.boards - {k}
    ensures forall c :: c in r.categories <==> c in t.categories && t.categories[c].board != k
    ensures forall j :: j in r.tasks <==>
              j in t.tasks && t.tasks[j].category in t.categories && t.categories[t.tasks[j].category].board != k
    ensures forall c :: c in r.categories ==> r.categories[c] == t.categories[c]
    ensures forall j :: j in r.tasks ==> r.tasks[j] == t.tasks[j]
    ensures Consistent(t) ==> Consistent(r)
  {
    var gone := CategoriesOf(t, k);
    t.(boards := t.boards - {k},
       categories := map c | c in t.categories && c !in gone :: t.categories[c],
       tasks := map j | j in t.tasks && t.tasks[j].category in t.categories && t.tasks[j].category !in gone
                     :: t.tasks[j])
  }

  /** Deleting a user row that owns no board. */
  function DeleteUserRow(t: Tables, k: int): (r: Tables)
    ensures r == t.(users := t.users - {k})
    ensures Consistent(t) && BoardsOf(t, k) == {} ==> Consistent(r)
  {
    t.(users := t.users - {k})
  }

  /**
   * The database behind the repositories: the four tables and the identity generator.
   * Each service method runs as one transaction: on failure nothing it did is kept.
   */
  class Database {
    var tables: Tables
    var nextId: int

    ghost predicate Valid()
      reads this
    {
      && Consistent(tables)
      && (forall k :: k in tables.users ==> k < nextId)
      && (forall k :: k in tables.boards ==> k < nextId)
      && (forall k :: k in tables.categories ==> k < nextId)
      && (forall k :: k in tables.tasks ==> k < nextId)
    }

    constructor ()
      ensures tables == Tables(map[], map[], map[], map[]) && Valid()
    {
      tables := Tables(map[], map[], map[], map[]);
      nextId := 1;
    }

    /** The identity column: an id no table holds yet. */
    method NewId() returns (id: int)
      requires Valid()
      modifies this`nextId
      ensures Valid() && id < nextId
      ensures id !in tables.users && id !in tables.boards && id !in tables.categories && id !in tables.tasks
      ensures forall k :: k in tables.users || k in tables.boards || k in tables.categories || k in tables.tasks ==>
                k < id
    {
      id := nextId;
      nextId := nextId + 1;
    }

    /** Saving a user row under an id the generator has handed out, clashing with no other user. */
    method PutUser(k: int, row: UserRow)
      requires Valid() && k < nextId && FreeFor(tables.users, k, row)
      modifies this`tables
      ensures Valid()
      ensures tables == old(tables).(users := old(tables.users)[k := row])
    {
      PutUserKeepsConsistent(tables, k, row);
      tables := tables.(users := tables.users[k := row]);
    }

    /** Saving a board row under an id the generator has handed out, for an existing owner. */
    method PutBoard(k: int, row: BoardRow)
      requires Valid() && k < nextId && row.owner in tables.users
      modifies this`tables
      ensures Valid()
      ensures tables == old(tables).(boards := old(tables.boards)[k := row])
    {
      PutBoardKeepsConsistent(tables, k, row);
      tables := tables.(boards := tables.boards[k := row]);
    }

    /** Saving a category row under an id the generator has handed out, on an existing board. */
    method PutCategory(k: int, row: CategoryRow)
      requires Valid() && k < nextId && row.board in tables.boards
      modifies this`tables
      ensures Valid()
      ensures tables == old(tables).(categories := old(tables.categories)[k := row])
    {
      PutCategoryKeepsConsistent(tables, k, row);
      tables := tables.(categories := tables.categories[k := row]);
    }

    /** Saving a task row under an id the generator has handed out, in an existing category. */
    method PutTask(k: int, row: TaskRow)
      requires Valid() && k < nextId && row.category in tables.categories
      modifies this`tables
      ensures Valid()
      ensures tables == old(tables).(tasks := old(tables.tasks)[k := row])
    {
      PutTaskKeepsConsistent(tables, k, row);
      tables := tables.(tasks := tables.tasks[k := row]);
    }
  }
}
