/**
 * The in-memory ownership graph User -> Board -> Category -> Task
 * (entities/User.java, Board.java, Category.java, Task.java).
 *
 * Each parent holds a Java HashSet of children and each child a reference to its parent.
 * A HashSet compares its members with equals/hashCode, which look at the id only, so a set
 * here is a Dafny `set` read under id-equality: it "contains" x when some member has x's id,
 * `add` inserts x only when no member has its id, and `remove` drops the member with x's id.
 * Two entities whose ids are both null are equal and collapse in a set.
 *
 * The Java add/set pairs call each other until a `contains` check stops them; each Dafny method
 * below performs the net effect of that call chain, with the calls it stands for named in comments.
 */
module Entities {
  import opened Wrappers

  datatype TaskStatus = Pending | InProgress | Completed

  datatype TaskPriority = Low | Medium | High

  /** Objects.hash(id) for a Long id: 31 * 1 + Long.hashCode(id) in 32-bit arithmetic, 31 for null. */
  function IdHash(id: Option<int>): (h: bv32)
    ensures id.None? ==> h == 31
    ensures id == Some(0) ==> h == 31
  {
    match id
    case None => 31
    case Some(v) =>
      var bits := (v % 0x1_0000_0000_0000_0000) as bv64;
      31 + (((bits ^ (bits >> 32)) & 0xFFFF_FFFF) as bv32)
  }

  // ---- HashSet<Board> under id-equality ----

  predicate HasBoard(s: set<Board>, b: Board) {
    exists x :: x in s && x.id == b.id
  }

  /** HashSet.add: inserts b unless a member already has its id. */
  function WithBoard(s: set<Board>, b: Board): (r: set<Board>)
    ensures HasBoard(r, b) && s <= r && r <= s + {b}
    ensures r == s <==> HasBoard(s, b)
    ensures DistinctBoardIds(s) ==> DistinctBoardIds(r)
  {
    if HasBoard(s, b) then s else s + {b}
  }

  /** HashSet.remove: drops the member that has b's id. */
  function WithoutBoard(s: set<Board>, b: Board): (r: set<Board>)
    ensures !HasBoard(r, b) && r <= s
    ensures forall x :: x in s && x.id != b.id ==> x in r
    ensures DistinctBoardIds(s) ==> DistinctBoardIds(r)
  {
    set x | x in s && x.id != b.id
  }

  /** No two members share an id: what a HashSet keeps. */
  ghost predicate DistinctBoardIds(s: set<Board>) {
    forall x, y :: x in s && y in s && x.id == y.id ==> x == y
  }

  // ---- HashSet<Category> under id-equality ----

  predicate HasCategory(s: set<Category>, c: Category) {
    exists x :: x in s && x.id == c.id
  }

  function WithCategory(s: set<Category>, c: Category): (r: set<Category>)
    ensures HasCategory(r, c) && s <= r && r <= s + {c}
    ensures r == s <==> HasCategory(s, c)
    ensures DistinctCategoryIds(s) ==> DistinctCategoryIds(r)
  {
    if HasCategory(s, c) then s else s + {c}
  }

  function WithoutCategory(s: set<Category>, c: Category): (r: set<Category>)
    ensures !HasCategory(r, c) && r <= s
    ensures forall x :: x in s && x.id != c.id ==> x in r
    ensures DistinctCategoryIds(s) ==> DistinctCategoryIds(r)
  {
    set x | x in s && x.id != c.id
  }

  ghost predicate DistinctCategoryIds(s: set<Category>) {
    forall x, y :: x in s && y in s && x.id == y.id ==> x == y
  }

  // ---- HashSet<Task> under id-equality ----

  predicate HasTask(s: set<Task>, t: Task) {
    exists x :: x in s && x.id == t.id
  }

  function WithTask(s: set<Task>, t: Task): (r: set<Task>)
    ensures HasTask(r, t) && s <= r && r <= s + {t}
    ensures r == s <==> HasTask(s, t)
    ensures DistinctTaskIds(s) ==> DistinctTaskIds(r)
  {
    if HasTask(s, t) then s else s + {t}
  }

  function WithoutTask(s: set<Task>, t: Task): (r: set<Task>)
    ensures !HasTask(r, t) && r <= s
    ensures forall x :: x in s && x.id != t.id ==> x in r
    ensures DistinctTaskIds(s) ==> DistinctTaskIds(r)
  {
    set x | x in s && x.id != t.id
  }

  ghost predicate DistinctTaskIds(s: set<Task>) {
    forall x, y :: x in s && y in s && x.id == y.id ==> x == y
  }

  // ---- users ----

  /** Objects.equals(a, b) on users: the same instance, or both present with equal ids. */
  predicate SameUser(a: User?, b: User?): (r: bool)
    reads a, b
    ensures r <==> a == b || (a != null && a.Equals(b))
  {
    a == b || (a != null && b != null && a.id == b.id)
  }

  /** The board set object of u, if u and its set are present. */
  function BoardSetOf(u: User?): set<BoardSet>
    reads u
  {
    if u == null || u.boards == null then {} else {u.boards}
  }

  /** s itself, as a frame. */
  function BoardSetsOf(s: BoardSet?): set<BoardSet> {
    if s == null then {} else {s}
  }

  /** The boards held by s, as a frame. */
  function BoardsIn(s: BoardSet?): set<Board>
    reads s
  {
    if s == null then {} else s.elems
  }

  /** Every board set reachable from the owners of the boards in bs. */
  ghost function OwnerSets(bs: set<Board>): set<BoardSet>
    reads bs, set b | b in bs && b.user != null :: b.user
  {
    set b | b in bs && b.user != null && b.user.boards != null :: b.user.boards
  }

  /**
   * A user's java.util.Set<Board>. It is an object of its own because User.setBoards and the
   * three-argument User constructor keep the caller's set itself, so two users may share one.
   */
  class BoardSet {
    var elems: set<Board>

    ghost predicate Valid()
      reads this
    {
      DistinctBoardIds(elems)
    }

    /** new HashSet<Board>() */
    constructor ()
      ensures elems == {} && Valid()
    {
      elems := {};
    }
  }

  class User {
    var id: Option<int>
    var username: Option<string>
    var email: Option<string>
    var boards: BoardSet?
    var createdAt: Option<int>
    var updatedAt: Option<int>

    /** User(): every field null except a fresh empty board set. */
    constructor Default()
      ensures id == None && username == None && email == None
      ensures boards != null && fresh(boards) && boards.elems == {}
      ensures createdAt == None && updatedAt == None
    {
      id, username, email := None, None, None;
      boards := new BoardSet();
      createdAt, updatedAt := None, None;
    }

    /** User(username, email): starts with a fresh empty board set. */
    constructor Required(username: Option<string>, email: Option<string>)
      ensures id == None && this.username == username && this.email == email
      ensures boards != null && fresh(boards) && boards.elems == {}
      ensures createdAt == None && updatedAt == None
    {
      id := None;
      this.username, this.email := username, email;
      boards := new BoardSet();
      createdAt, updatedAt := None, None;
    }

    /** User(username, email, boards): keeps the given set itself and sets no back-reference. */
    constructor Full(username: Option<string>, email: Option<string>, boards: BoardSet?)
      ensures id == None && this.username == username && this.email == email
      ensures this.boards == boards
      ensures boards != null ==> boards.elems == old(boards.elems)
      ensures boards != null ==> forall b :: b in boards.elems ==> b.user == old(b.user)
      ensures createdAt == None && updatedAt == None
    {
      id := None;
      this.username, this.email := username, email;
      this.boards := boards;
      createdAt, updatedAt := None, None;
    }

    method SetId(id: Option<int>)
      modifies this`id
      ensures this.id == id
    {
      this.id := id;
    }

    /** equals: the same instance, or ids equal (two users with null ids are equal). */
    predicate Equals(other: User?)
      reads this, other
      ensures Equals(other) <==> other != null && other.id == id
    {
      this == other || (other != null && id == other.id)
    }

    function HashCode(): (h: bv32)
      reads this
      ensures id.None? ==> h == 31
    {
      IdHash(id)
    }

    /** addBoard: boards.add(b), then b.setUser(this). */
    method AddBoard(b: Board)
      requires boards != null && boards.Valid()
      requires !SameUser(b.user, this) && b.user != null ==> b.user.boards != null
      modifies boards`elems, b`user, BoardSetOf(b.user)`elems
      ensures boards.Valid()
      ensures HasBoard(boards.elems, b) && SameUser(b.user, this)
      ensures SameUser(old(b.user), this) ==>
                b.user == old(b.user) && boards.elems == WithBoard(old(boards.elems), b)
      ensures !SameUser(old(b.user), this) ==> b.user == this
      ensures !SameUser(old(b.user), this) && old(b.user) != null && old(b.user.boards) != boards ==>
                boards.elems == WithBoard(old(boards.elems), b) &&
                old(b.user.boards).elems == WithoutBoard(old(b.user.boards.elems), b)
      ensures !SameUser(old(b.user), this) && old(b.user) != null && old(b.user.boards) == boards ==>
                boards.elems == WithoutBoard(old(boards.elems), b) + {b}
      ensures !SameUser(old(b.user), this) && old(b.user) == null ==>
                boards.elems == WithBoard(old(boards.elems), b)
    {
      boards.elems := WithBoard(boards.elems, b);
      b.SetUser(this);
    }

    /** removeBoard: boards.remove(b), then b.setUser(null). */
    method RemoveBoard(b: Board)
      requires boards != null && boards.Valid()
      requires b.user != null ==> b.user.boards != null
      modifies boards`elems, b`user, BoardSetOf(b.user)`elems
      ensures boards.Valid()
      ensures !HasBoard(boards.elems, b) && b.user == null
      ensures boards.elems == WithoutBoard(old(boards.elems), b)
      ensures old(b.user) != null ==>
                old(b.user.boards).elems == WithoutBoard(old(b.user.boards.elems), b)
    {
      boards.elems := WithoutBoard(boards.elems, b);
      b.SetUser(null);
    }

    /** One step of setBoards: b.setUser(this) unless b's owner is this very instance. */
    method Adopt(b: Board)
      requires boards != null && boards.Valid() && HasBoard(boards.elems, b)
      requires b.user != null && !SameUser(b.user, this) ==>
                 b.user.boards != null && b.user.boards != boards
      modifies b`user, BoardSetOf(b.user)`elems, boards`elems
      ensures boards.elems == old(boards.elems)
      ensures b.user == (if SameUser(old(b.user), this) then old(b.user) else this)
      ensures old(b.user != null && !SameUser(b.user, this)) ==>
                old(b.user.boards).elems == WithoutBoard(old(b.user.boards.elems), b)
      ensures old(b.user == null || SameUser(b.user, this)) ==> unchanged(BoardSetOf(old(b.user)))
      ensures forall o: BoardSet :: old(allocated(o)) ==> o.elems <= old(o.elems)
      ensures forall o: BoardSet, x :: old(allocated(o)) && x in old(o.elems) && x !in o.elems ==> x.id == b.id
    {
      if b.user != this {
        b.SetUser(this);
      }
    }

    /**
     * setBoards(s): keeps s itself, then hands every board of s whose owner is not this user
     * (by Objects.equals) to this user through Board.setUser, which removes it from its previous
     * owner's set. The model excludes the two ways that loop throws in Java: a previous owner
     * without a board set (NullPointerException) and a previous owner sharing s
     * (ConcurrentModificationException while iterating s).
     */
    method SetBoards(s: BoardSet?)
      requires s != null ==> s.Valid()
      requires s != null ==> forall b :: b in s.elems && b.user != null && !SameUser(b.user, this) ==>
                 b.user.boards != null && b.user.boards != s
      modifies this`boards, BoardSetsOf(s)`elems, BoardsIn(s)`user
      modifies if s == null then {} else OwnerSets(s.elems)
      ensures boards == s
      ensures s != null ==> s.elems == old(s.elems)
      ensures s != null ==> forall b :: b in s.elems && old(SameUser(b.user, this)) ==> b.user == old(b.user)
      ensures s != null ==> forall b :: b in s.elems && !old(SameUser(b.user, this)) ==> b.user == this
      ensures s != null ==> forall b :: b in old(s.elems) && old(b.user != null && !SameUser(b.user, this)) ==>
                !HasBoard(old(b.user.boards).elems, b)
      ensures s != null ==> forall o :: o in old(OwnerSets(s.elems)) && o != s ==> o.elems <= old(o.elems)
    {
      boards := s;
      if s != null {
        ghost var owners := old(OwnerSets(s.elems));
        var todo := s.elems;
        ghost var done: set<Board> := {};
        while todo != {}
          invariant todo <= s.elems && done == s.elems - todo
          invariant boards == s && s.elems == old(s.elems)
          invariant forall b :: b in todo ==> b.user == old(b.user)
          invariant forall b :: b in done && old(SameUser(b.user, this)) ==> b.user == old(b.user)
          invariant forall b :: b in done && !old(SameUser(b.user, this)) ==> b.user == this
          invariant forall b :: b in done && old(b.user != null && !SameUser(b.user, this)) ==>
                      !HasBoard(old(b.user.boards).elems, b)
          invariant s.Valid()
          invariant forall b :: b in todo && b.user != null && !SameUser(b.user, this) ==>
                      b.user.boards != null && b.user.boards != s
          invariant forall o :: o in owners && o != s ==> o.elems <= old(o.elems)
          decreases todo
        {
          var b :| b in todo;
          Adopt(b);
          todo := todo - {b};
          done := done + {b};
        }
        assert done == s.elems;
      }
    }
  }

  class Board {
    const id: Option<int>
    var name: Option<string>
    var description: Option<string>
    var user: User?
    var categories: set<Category>
    var createdAt: Option<int>
    var updatedAt: Option<int>

    ghost predicate Valid()
      reads this
    {
      DistinctCategoryIds(categories)
    }

    /** Board() */
    constructor Default()
      ensures id == None && name == None && description == None && user == null
      ensures categories == {} && createdAt == None && updatedAt == None && Valid()
    {
      id, name, description, user := None, None, None, null;
      categories := {};
      createdAt, updatedAt := None, None;
    }

    /** Board(name, user): writes the owner field only; the owner's board set is not touched. */
    constructor Required(name: Option<string>, user: User?)
      ensures id == None && this.name == name && description == None && this.user == user
      ensures categories == {} && createdAt == None && updatedAt == None && Valid()
      ensures user != null && user.boards != null ==> user.boards.elems == old(user.boards.elems)
    {
      id, this.name, description, this.user := None, name, None, user;
      categories := {};
      createdAt, updatedAt := None, None;
    }

    /** Board(name, description, user): as Required, with a description. */
    constructor Full(name: Option<string>, description: Option<string>, user: User?)
      ensures id == None && this.name == name && this.description == description && this.user == user
      ensures categories == {} && createdAt == None && updatedAt == None && Valid()
      ensures user != null && user.boards != null ==> user.boards.elems == old(user.boards.elems)
    {
      id, this.name, this.description, this.user := None, name, description, user;
      categories := {};
      createdAt, updatedAt := None, None;
    }

    /** equals: the same instance, or equal ids (two boards with null ids are equal). */
    predicate Equals(other: Board?)
      ensures Equals(other) <==> other != null && other.id == id
    {
      this == other || (other != null && id == other.id)
    }

    function HashCode(): (h: bv32)
      ensures id.None? ==> h == 31
    {
      IdHash(id)
    }

    /**
     * addCategory(c): when no member has c's id, insert c and call c.setBoard(this), which
     * writes c.board and, finding c already in the set, stops. Otherwise nothing happens.
     */
    method AddCategory(c: Category)
      requires Valid()
      modifies this`categories, c`board
      ensures Valid() && HasCategory(categories, c)
      ensures old(HasCategory(categories, c)) ==> categories == old(categories) && c.board == old(c.board)
      ensures !old(HasCategory(categories, c)) ==> categories == old(categories) + {c} && c.board == this
    {
      if !HasCategory(categories, c) {
        categories := categories + {c};
        c.board := this;
      }
    }

    /**
     * removeCategory(c): when a member has c's id, remove that member and call c.setBoard(null).
     * The back-reference cleared is c's, even when the member removed is another instance.
     */
    method RemoveCategory(c: Category)
      requires Valid()
      modifies this`categories, c`board
      ensures Valid() && !HasCategory(categories, c)
      ensures old(HasCategory(categories, c)) ==>
                categories == WithoutCategory(old(categories), c) && c.board == null
      ensures !old(HasCategory(categories, c)) ==> categories == old(categories) && c.board == old(c.board)
    {
      if HasCategory(categories, c) {
        categories := WithoutCategory(categories, c);
        c.board := null;
      }
    }

    /**
     * setUser(u): when u is not Objects.equals to the current owner, remove this board from the
     * current owner's set, write the field, and unless u's set already holds this board call
     * u.addBoard(this), which inserts it and calls back setUser(u), now a no-op.
     */
    method SetUser(u: User?)
      requires !SameUser(user, u) ==> (user != null ==> user.boards != null)
      requires !SameUser(user, u) ==> (u != null ==> u.boards != null && u.boards.Valid())
      modifies this`user, BoardSetOf(user)`elems, BoardSetOf(u)`elems
      ensures !SameUser(old(user), u) && u != null ==> u.boards.Valid()
      ensures SameUser(old(user), u) ==> user == old(user) && unchanged(BoardSetOf(old(user)), BoardSetOf(u))
      ensures !SameUser(old(user), u) ==> user == u
      ensures !SameUser(old(user), u) && u != null ==> HasBoard(u.boards.elems, this)
      ensures !SameUser(old(user), u) && old(user) != null && (u == null || old(user.boards) != u.boards) ==>
                old(user.boards).elems == WithoutBoard(old(user.boards.elems), this)
      ensures !SameUser(old(user), u) && u != null && (old(user) == null || old(user.boards) != u.boards) ==>
                u.boards.elems == WithBoard(old(u.boards.elems), this)
      ensures !SameUser(old(user), u) && old(user) != null && u != null && old(user.boards) == u.boards ==>
                u.boards.elems == WithoutBoard(old(u.boards.elems), this) + {this}
    {
      if !SameUser(user, u) {
        if user != null {
          user.boards.elems := WithoutBoard(user.boards.elems, this);
        }
        user := u;
        if u != null && !HasBoard(u.boards.elems, this) {
          u.boards.elems := u.boards.elems + {this};
        }
      }
    }

    /**
     * setCategories(s): clear the set, then addCategory each member of s (in no set order).
     * The categories dropped by clear() keep their back-reference to this board.
     */
    method SetCategories(s: Option<set<Category>>)
      requires s.Some? ==> DistinctCategoryIds(s.value)
      modifies this`categories, (if s.Some? then s.value else {})`board
      ensures Valid()
      ensures categories == (if s.Some? then s.value else {})
      ensures forall c :: c in categories ==> c.board == this
      ensures forall c :: c in old(categories) && c !in categories ==> c.board == old(c.board)
    {
      categories := {};
      if s.Some? {
        var todo := s.value;
        while todo != {}
          invariant todo <= s.value && categories == s.value - todo
          invariant Valid()
          invariant forall c :: c in categories ==> c.board == this
          invariant forall c :: c in old(categories) && c !in s.value ==> c.board == old(c.board)
          decreases todo
        {
          var c :| c in todo;
          assert !HasCategory(categories, c);
          AddCategory(c);
          todo := todo - {c};
        }
      }
    }

    /** @PrePersist onCreate */
    method OnCreate(now: int)
      modifies this`createdAt
      ensures createdAt == Some(now)
    {
      createdAt := Some(now);
    }

    /** @PreUpdate onUpdate */
    method OnUpdate(now: int)
      modifies this`updatedAt
      ensures updatedAt == Some(now)
    {
      updatedAt := Some(now);
    }
  }

  class Category {
    const id: Option<int>
    var name: Option<string>
    var description: Option<string>
    var board: Board?
    var tasks: set<Task>
    var createdAt: Option<int>
    var updatedAt: Option<int>

    ghost predicate Valid()
      reads this
    {
      DistinctTaskIds(tasks)
    }

    /** Category() */
    constructor Default()
      ensures id == None && name == None && description == None && board == null
      ensures tasks == {} && createdAt == None && updatedAt == None && Valid()
    {
      id, name, description, board := None, None, None, null;
      tasks := {};
      createdAt, updatedAt := None, None;
    }

    /** Category(name, board): writes the board field only; the board's category set is not touched. */
    constructor Required(name: Option<string>, board: Board?)
      ensures id == None && this.name == name && description == None && this.board == board
      ensures tasks == {} && createdAt == None && updatedAt == None && Valid()
      ensures board != null ==> board.categories == old(board.categories)
    {
      id, this.name, description, this.board := None, name, None, board;
      tasks := {};
      createdAt, updatedAt := None, None;
    }

    /** equals: the same instance, or equal ids (two categories with null ids are equal). */
    predicate Equals(other: Category?)
      ensures Equals(other) <==> other != null && other.id == id
    {
      this == other || (other != null && id == other.id)
    }

    function HashCode(): (h: bv32)
      ensures id.None? ==> h == 31
    {
      IdHash(id)
    }

    /** addTask(t): when no member has t's id, insert t and call t.setCategory(this), which stops. */
    method AddTask(t: Task)
      requires Valid()
      modifies this`tasks, t`category
      ensures Valid() && HasTask(tasks, t)
      ensures old(HasTask(tasks, t)) ==> tasks == old(tasks) && t.category == old(t.category)
      ensures !old(HasTask(tasks, t)) ==> tasks == old(tasks) + {t} && t.category == this
    {
      if !HasTask(tasks, t) {
        tasks := tasks + {t};
        t.category := this;
      }
    }

    /** removeTask(t): when a member has t's id, remove it and call t.setCategory(null). */
    method RemoveTask(t: Task)
      requires Valid()
      modifies this`tasks, t`category
      ensures Valid() && !HasTask(tasks, t)
      ensures old(HasTask(tasks, t)) ==> tasks == WithoutTask(old(tasks), t) && t.category == null
      ensures !old(HasTask(tasks, t)) ==> tasks == old(tasks) && t.category == old(t.category)
    {
      if HasTask(tasks, t) {
        tasks := WithoutTask(tasks, t);
        t.category := null;
      }
    }

    /**
     * setBoard(b): write the field; unless b's set already holds this category, call
     * b.addCategory(this), which inserts it and calls back setBoard(b), which then stops.
     * The previous board's set is never touched.
     */
    method SetBoard(b: Board?)
      requires b != null ==> b.Valid()
      modifies this`board, (if b == null then {} else {b})`categories
      ensures board == b
      ensures b != null ==> b.Valid() && b.categories == WithCategory(old(b.categories), this)
      ensures old(board) != null && old(board) != b ==> old(board).categories == old(board.categories)
    {
      board := b;
      if b != null && !HasCategory(b.categories, this) {
        b.categories := b.categories + {this};
      }
    }

    /** setTasks(s): clear the set, then addTask each member of s. */
    method SetTasks(s: Option<set<Task>>)
      requires s.Some? ==> DistinctTaskIds(s.value)
      modifies this`tasks, (if s.Some? then s.value else {})`category
      ensures Valid()
      ensures tasks == (if s.Some? then s.value else {})
      ensures forall t :: t in tasks ==> t.category == this
      ensures forall t :: t in old(tasks) && t !in tasks ==> t.category == old(t.category)
    {
      tasks := {};
      if s.Some? {
        var todo := s.value;
        while todo != {}
          invariant todo <= s.value && tasks == s.value - todo
          invariant Valid()
          invariant forall t :: t in tasks ==> t.category == this
          invariant forall t :: t in old(tasks) && t !in s.value ==> t.category == old(t.category)
          decreases todo
        {
          var t :| t in todo;
          assert !HasTask(tasks, t);
          AddTask(t);
          todo := todo - {t};
        }
      }
    }
  }

  class Task {
    const id: Option<int>
    var name: Option<string>
    var description: Option<string>
    var status: Option<TaskStatus>
    var priority: Option<TaskPriority>
    var dueDate: Option<int>
    var category: Category?
    var createdAt: Option<int>
    var updatedAt: Option<int>

    /** Task() */
    constructor Default()
      ensures id == None && name == None && description == None && status == None && priority == None
      ensures dueDate == None && category == null && createdAt == None && updatedAt == None
    {
      id, name, description, status, priority, dueDate := None, None, None, None, None, None;
      category, createdAt, updatedAt := null, None, None;
    }

    /** Task(name, category): writes the category field only; its task set is not touched. */
    constructor Required(name: Option<string>, category: Category?)
      ensures id == None && this.name == name && description == None && status == None && priority == None
      ensures dueDate == None && this.category == category && createdAt == None && updatedAt == None
      ensures category != null ==> category.tasks == old(category.tasks)
    {
      id, this.name, description, status, priority, dueDate := None, name, None, None, None, None;
      this.category, createdAt, updatedAt := category, None, None;
    }

    /** Task(name, description, status, priority, dueDate, category) */
    constructor Full(name: Option<string>, description: Option<string>, status: Option<TaskStatus>,
                     priority: Option<TaskPriority>, dueDate: Option<int>, category: Category?)
      ensures id == None && this.name == name && this.description == description
      ensures this.status == status && this.priority == priority && this.dueDate == dueDate
      ensures this.category == category && createdAt == None && updatedAt == None
      ensures category != null ==> category.tasks == old(category.tasks)
    {
      id, this.name, this.description := None, name, description;
      this.status, this.priority, this.dueDate := status, priority, dueDate;
      this.category, createdAt, updatedAt := category, None, None;
    }

    /** equals: the same instance, or equal ids (two tasks with null ids are equal). */
    predicate Equals(other: Task?)
      ensures Equals(other) <==> other != null && other.id == id
    {
      this == other || (other != null && id == other.id)
    }

    function HashCode(): (h: bv32)
      ensures id.None? ==> h == 31
    {
      IdHash(id)
    }

    method SetName(name: Option<string>)
      modifies this`name
      ensures this.name == name
    {
      this.name := name;
    }

    method SetDescription(description: Option<string>)
      modifies this`description
      ensures this.description == description
    {
      this.description := description;
    }

    method SetStatus(status: Option<TaskStatus>)
      modifies this`status
      ensures this.status == status
    {
      this.status := status;
    }

    method SetPriority(priority: Option<TaskPriority>)
      modifies this`priority
      ensures this.priority == priority
    {
      this.priority := priority;
    }

    method SetDueDate(dueDate: Option<int>)
      modifies this`dueDate
      ensures this.dueDate == dueDate
    {
      this.dueDate := dueDate;
    }

    /**
     * setCategory(c): write the field; unless c's set already holds this task, call
     * c.addTask(this), which inserts it and calls back setCategory(c); that second call finds the
     * task in the set and stops, so the round trip inserts exactly once.
     * The previous category's set is never touched.
     */
    method SetCategory(c: Category?)
      requires c != null ==> c.Valid()
      modifies this`category, (if c == null then {} else {c})`tasks
      ensures category == c
      ensures c != null ==> c.Valid() && c.tasks == WithTask(old(c.tasks), this)
      ensures old(category) != null && old(category) != c ==> old(category).tasks == old(category.tasks)
    {
      category := c;
      if c != null && !HasTask(c.tasks, this) {
        c.tasks := c.tasks + {this};
      }
    }

    /** @PrePersist onCreate: the only writer of createdAt. */
    method OnCreate(now: int)
      modifies this`createdAt
      ensures createdAt == Some(now)
    {
      createdAt := Some(now);
    }

    /** @PreUpdate onUpdate: the only writer of updatedAt. */
    method OnUpdate(now: int)
      modifies this`updatedAt
      ensures updatedAt == Some(now)
    {
      updatedAt := Some(now);
    }
  }

  /** removeBoard undoes addBoard on a board set: adding a new board and removing it restores the set. */
  lemma AddThenRemoveBoardRestores(s: set<Board>, b: Board)
    requires !HasBoard(s, b)
    ensures WithoutBoard(WithBoard(s, b), b) == s
  {
    forall x | x in s ensures x.id != b.id {
    }
  }

  /** removeCategory undoes addCategory on a category set. */
  lemma AddThenRemoveCategoryRestores(s: set<Category>, c: Category)
    requires !HasCategory(s, c)
    ensures WithoutCategory(WithCategory(s, c), c) == s
  {
    forall x | x in s ensures x.id != c.id {
    }
  }

  /** removeTask undoes addTask on a task set. */
  lemma AddThenRemoveTaskRestores(s: set<Task>, t: Task)
    requires !HasTask(s, t)
    ensures WithoutTask(WithTask(s, t), t) == s
  {
    forall x | x in s ensures x.id != t.id {
    }
  }

  /** Equal boards hash alike, as the equals/hashCode contract asks. */
  lemma EqualBoardsHashAlike(a: Board, b: Board)
    requires a.Equals(b)
    ensures a.HashCode() == b.HashCode()
  {
  }

  /** Equal categories hash alike. */
  lemma EqualCategoriesHashAlike(a: Category, b: Category)
    requires a.Equals(b)
    ensures a.HashCode() == b.HashCode()
  {
  }

  /** Equal tasks hash alike. */
  lemma EqualTasksHashAlike(a: Task, b: Task)
    requires a.Equals(b)
    ensures a.HashCode() == b.HashCode()
  {
  }

  /** Equal users hash alike. */
  lemma EqualUsersHashAlike(a: User, b: User)
    requires a.Equals(b)
    ensures a.HashCode() == b.HashCode()
  {
  }

  /**
   * Two unsaved boards are equal, so a board set that already holds one unsaved board
   * ignores the next: adding it changes nothing.
   */
  lemma UnsavedBoardsCollapse(s: set<Board>, a: Board, b: Board)
    requires a in s && a.id.None? && b.id.None?
    ensures a.Equals(b)
    ensures WithBoard(s, b) == s
  {
    assert HasBoard(s, b) by {
      assert a in s && a.id == b.id;
    }
  }

  /** The same for tasks: an unsaved task is not added beside another unsaved one. */
  lemma UnsavedTasksCollapse(s: set<Task>, a: Task, b: Task)
    requires a in s && a.id.None? && b.id.None?
    ensures a.Equals(b)
    ensures WithTask(s, b) == s
  {
    assert HasTask(s, b) by {
      assert a in s && a.id == b.id;
    }
  }
}
