/**
 * BoardService: creating, merging, deleting and partially updating board rows, and attaching
 * and detaching categories through the board's cascading category set.
 */
module BoardService {
  import opened Wrappers
  import opened Text
  import opened Entities
  import opened Store
  import opened Checks

  /** validateBoard: the name rule, then "must belong to a user". The description is not checked. */
  function CheckBoard(board: BoardData): (r: Outcome<Failure>)
    ensures r.Pass? <==> board.name.Some? && !AllSpace(board.name.value) && board.user != Null
    ensures CheckName(board.name).Fail? ==> r == Fail(Invalid(Name))
    ensures CheckName(board.name).Pass? && board.user == Null ==> r == Fail(Invalid(Owner))
  {
    if CheckName(board.name).Fail? then CheckName(board.name)
    else if board.user == Null then Fail(Invalid(Owner))
    else Pass
  }

  /** Everything createBoard checks before it saves. */
  function CreateBoardGuard(t: Tables, board: BoardData): (r: Outcome<Failure>)
    ensures r.Pass? <==>
              board.id.None? && board.name.Some? && !AllSpace(board.name.value) &&
              board.user.Ref? && board.user.id.Some? && board.user.id.value in t.users
    ensures board.id.Some? ==> r == Fail(IdPresent)
    ensures board.id.None? && CheckBoard(board).Fail? ==> r == CheckBoard(board)
    ensures board.id.None? && CheckBoard(board).Pass? && board.user.id.None? ==> r == Fail(NullId)
  {
    if board.id.Some? then Fail(IdPresent)
    else if CheckBoard(board).Fail? then CheckBoard(board)
    else Found(FindUser(t, board.user.id))
  }

  /** The row a save of a new board inserts: createdAt stamped by @PrePersist, updatedAt null. */
  function NewBoardRow(board: BoardData, owner: int, now: int): (r: BoardRow)
    requires board.name.Some?
    ensures r.name == board.name.value && r.description == board.description && r.owner == owner
    ensures r.createdAt == now && r.updatedAt.None?
  {
    BoardRow(board.name.value, board.description, owner, now, None)
  }

  /** Everything updateBoard checks before it saves, in its order: find, validate, find the user. */
  function UpdateBoardGuard(t: Tables, board: BoardData): (r: Outcome<Failure>)
    ensures r.Pass? <==>
              board.id.Some? && board.id.value in t.boards &&
              board.name.Some? && !AllSpace(board.name.value) &&
              board.user.Ref? && board.user.id.Some? && board.user.id.value in t.users
    ensures FindBoard(t, board.id).Failure? ==> r == Found(FindBoard(t, board.id))
    ensures FindBoard(t, board.id).Success? && CheckBoard(board).Fail? ==> r == CheckBoard(board)
  {
    if FindBoard(t, board.id).Failure? then Found(FindBoard(t, board.id))
    else if CheckBoard(board).Fail? then CheckBoard(board)
    else Found(FindUser(t, board.user.id))
  }

  /**
   * updateBoard's merge: a present name and a present description overwrite the stored ones,
   * the owner becomes the incoming user (Board.setUser), the creation time stays.
   */
  function MergeBoard(row: BoardRow, board: BoardData, owner: int): (r: BoardRow)
    ensures r.owner == owner && r.createdAt == row.createdAt && r.updatedAt == row.updatedAt
  {
    BoardRow(if board.name.Some? then board.name.value else row.name,
             if board.description.Some? then board.description else row.description,
             owner, row.createdAt, row.updatedAt)
  }

  /** The row updateBoard saves: the merge, stamped by @PreUpdate only when something changed. */
  function SavedBoard(row: BoardRow, board: BoardData, owner: int, now: int): (r: BoardRow)
    ensures r.owner == owner && r.createdAt == row.createdAt
    ensures MergeBoard(row, board, owner) == row ==> r == row
    ensures MergeBoard(row, board, owner) != row ==> r == MergeBoard(row, board, owner).(updatedAt := Some(now))
  {
    var merged := MergeBoard(row, board, owner);
    if merged == row then row else merged.(updatedAt := Some(now))
  }

  /** The row cascade-merge writes for a category attached to `board`: the category's own fields. */
  function AttachedCategory(category: CategoryData, board: int, createdAt: int, updatedAt: Option<int>)
    : (r: CategoryRow)
    requires category.name.Some?
    ensures r.board == board && r.createdAt == createdAt && r.updatedAt == updatedAt
    ensures r.name == category.name.value && r.description == category.description
  {
    CategoryRow(category.name.value, category.description, board, createdAt, updatedAt)
  }

  /**
   * What addCategoryToBoard checks: the board must exist. A category whose id the board already
   * holds is left alone; any other is cascaded on save, which fails for a null name (a NOT NULL
   * column) and for an id no row has.
   */
  function AddCategoryGuard(t: Tables, boardId: Option<int>, category: CategoryData): (r: Outcome<Failure>)
    ensures r.Pass? <==>
              boardId.Some? && boardId.value in t.boards &&
              ((category.id.Some? && category.id.value in CategoriesOf(t, boardId.value)) ||
               (category.name.Some? && (category.id.None? || category.id.value in t.categories)))
    ensures FindBoard(t, boardId).Failure? ==> r == Found(FindBoard(t, boardId))
  {
    if FindBoard(t, boardId).Failure? then Found(FindBoard(t, boardId))
    else if category.id.Some? && category.id.value in CategoriesOf(t, boardId.value) then Pass
    else if category.name.None? then Fail(PersistenceFailure)
    else if category.id.Some? && category.id.value !in t.categories then Fail(PersistenceFailure)
    else Pass
  }

  /** createBoard; returns the generated id. */
  method CreateBoard(db: Database, board: BoardData, now: int) returns (r: Result<int, Failure>)
    requires db.Valid()
    modifies db
    ensures db.Valid()
    ensures r.Failure? <==> CreateBoardGuard(old(db.tables), board).Fail?
    ensures r.Failure? ==> r.error == CreateBoardGuard(old(db.tables), board).error && db.tables == old(db.tables)
    ensures r.Success? ==> r.value !in old(db.tables.boards)
    ensures r.Success? ==>
              db.tables == old(db.tables).(boards := old(db.tables.boards)[r.value :=
                NewBoardRow(board, board.user.id.value, now)])
  {
    if board.id.Some? {
      return Failure(IdPresent);
    }
    var valid := CheckBoard(board);
    if valid.Fail? {
      return Failure(valid.error);
    }
    var user := FindUser(db.tables, board.user.id);
    if user.Failure? {
      return Failure(user.error);
    }
    var id := db.NewId();
    db.PutBoard(id, NewBoardRow(board, board.user.id.value, now));
    return Success(id);
  }

  /**
   * updateBoard: returns the merged board. When the owner stays, the row becomes the saved merge
   * and the categories and tasks are untouched. When the owner changes, Board.setUser takes the
   * board out of the old owner's board set, which is mapped with orphanRemoval: the flush deletes
   * the board, and the cascade on Board.categories deletes its categories and their tasks.
   */
  method UpdateBoard(db: Database, board: BoardData, now: int) returns (r: Result<BoardRow, Failure>)
    requires db.Valid()
    modifies db`tables
    ensures db.Valid()
    ensures r.Failure? <==> UpdateBoardGuard(old(db.tables), board).Fail?
    ensures r.Failure? ==> r.error == UpdateBoardGuard(old(db.tables), board).error && db.tables == old(db.tables)
    ensures r.Success? ==> r.value.owner == board.user.id.value
    ensures r.Success? && old(db.tables.boards[board.id.value].owner) == board.user.id.value ==>
              r.value == SavedBoard(old(db.tables.boards[board.id.value]), board, board.user.id.value, now) &&
              db.tables == old(db.tables).(boards := old(db.tables.boards)[board.id.value := r.value])
    ensures r.Success? && old(db.tables.boards[board.id.value].owner) != board.user.id.value ==>
              r.value == MergeBoard(old(db.tables.boards[board.id.value]), board, board.user.id.value) &&
              db.tables == DeleteBoardRow(old(db.tables), board.id.value)
  {
    var existing := FindBoard(db.tables, board.id);
    if existing.Failure? {
      return Failure(existing.error);
    }
    var valid := CheckBoard(board);
    if valid.Fail? {
      return Failure(valid.error);
    }
    var user := FindUser(db.tables, board.user.id);
    if user.Failure? {
      return Failure(user.error);
    }
    if existing.value.owner != board.user.id.value {
      // orphan removal on the old owner's board set wins over the new join column
      db.tables := DeleteBoardRow(db.tables, board.id.value);
      return Success(MergeBoard(existing.value, board, board.user.id.value));
    }
    var saved := SavedBoard(existing.value, board, board.user.id.value, now);
    db.PutBoard(board.id.value, saved);
    return Success(saved);
  }

  /** updateBoardName: the name rule, the board must exist, then a bulk update by id. */
  method UpdateBoardName(db: Database, boardId: Option<int>, newName: Option<string>) returns (r: Outcome<Failure>)
    requires db.Valid()
    modifies db`tables
    ensures db.Valid()
    ensures r.Pass? <==> newName.Some? && !AllSpace(newName.value) && boardId.Some? && boardId.value in old(db.tables.boards)
    ensures CheckName(newName).Fail? ==> r == CheckName(newName)
    ensures CheckName(newName).Pass? && r.Fail? ==> r == Found(FindBoard(old(db.tables), boardId))
    ensures r.Fail? ==> db.tables == old(db.tables)
    ensures r.Pass? ==> db.tables == old(db.tables).(boards := old(db.tables.boards)[boardId.value :=
              old(db.tables.boards[boardId.value]).(name := newName.value)])
  {
    var valid := CheckName(newName);
    if valid.Fail? {
      return valid;
    }
    var board := FindBoard(db.tables, boardId);
    if board.Failure? {
      return Fail(board.error);
    }
    // WHERE b.id = :boardId matches the row just found
    var rows := if boardId.value in db.tables.boards then 1 else 0;
    if rows == 0 {
      return Fail(NothingUpdated);
    }
    db.PutBoard(boardId.value, board.value.(name := newName.value));
    return Pass;
  }

  /** updateBoardDescription: the description rule (null throws), the board must exist, then a bulk update by id. */
  method UpdateBoardDescription(db: Database, boardId: Option<int>, newDescription: Option<string>)
    returns (r: Outcome<Failure>)
    requires db.Valid()
    modifies db`tables
    ensures db.Valid()
    ensures r.Pass? <==> newDescription.Some? && boardId.Some? && boardId.value in old(db.tables.boards)
    ensures newDescription.None? ==> r == Fail(NullDereference)
    ensures newDescription.Some? && r.Fail? ==> r == Found(FindBoard(old(db.tables), boardId))
    ensures r.Fail? ==> db.tables == old(db.tables)
    ensures r.Pass? ==> db.tables == old(db.tables).(boards := old(db.tables.boards)[boardId.value :=
              old(db.tables.boards[boardId.value]).(description := newDescription)])
  {
    var valid := CheckDescription(newDescription);
    if valid.Fail? {
      return valid;
    }
    var board := FindBoard(db.tables, boardId);
    if board.Failure? {
      return Fail(board.error);
    }
    // WHERE b.id = :boardId matches the row just found
    var rows := if boardId.value in db.tables.boards then 1 else 0;
    if rows == 0 {
      return Fail(NothingUpdated);
    }
    db.PutBoard(boardId.value, board.value.(description := newDescription));
    return Pass;
  }

  /**
   * deleteBoard: deleteById with no existence check. A null id throws; an id no row has is
   * ignored; otherwise the board goes, and the cascades take its categories and their tasks.
   */
  method DeleteBoard(db: Database, boardId: Option<int>) returns (r: Outcome<Failure>)
    requires db.Valid()
    modifies db`tables
    ensures db.Valid()
    ensures r.Pass? <==> boardId.Some?
    ensures r.Fail? ==> r == Fail(NullId) && db.tables == old(db.tables)
    ensures r.Pass? && boardId.value !in old(db.tables.boards) ==> db.tables == old(db.tables)
    ensures r.Pass? && boardId.value in old(db.tables.boards) ==> db.tables == DeleteBoardRow(old(db.tables), boardId.value)
  {
    if boardId.None? {
      return Fail(NullId);
    }
    if boardId.value in db.tables.boards {
      db.tables := DeleteBoardRow(db.tables, boardId.value);
    }
    return Pass;
  }

  /**
   * addCategoryToBoard: board.addCategory(category), then save(board). A category the board
   * already holds is untouched; otherwise the cascade inserts a new category (no validation) or
   * moves an existing one here, overwriting its fields and stamping updatedAt. The merge also
   * replaces a moved category's task set by the one the incoming object carries (empty here), so
   * orphan removal deletes its stored tasks. Returns its id.
   */
  method AddCategoryToBoard(db: Database, boardId: Option<int>, category: CategoryData, now: int)
    returns (r: Result<int, Failure>)
    requires db.Valid()
    modifies db
    ensures db.Valid()
    ensures r.Failure? <==> AddCategoryGuard(old(db.tables), boardId, category).Fail?
    ensures r.Failure? ==> r.error == AddCategoryGuard(old(db.tables), boardId, category).error &&
                           db.tables == old(db.tables)
    ensures r.Success? ==> r.value in CategoriesOf(db.tables, boardId.value)
    ensures r.Success? && category.id.Some? ==> r.value == category.id.value
    ensures r.Success? && category.id.Some? && category.id.value in CategoriesOf(old(db.tables), boardId.value) ==>
              db.tables == old(db.tables)
    ensures r.Success? && category.id.None? ==>
              r.value !in old(db.tables.categories) &&
              db.tables == old(db.tables).(categories := old(db.tables.categories)[r.value :=
                AttachedCategory(category, boardId.value, now, None)])
    ensures r.Success? && category.id.Some? && category.id.value !in CategoriesOf(old(db.tables), boardId.value) ==>
              db.tables == ClearTasks(old(db.tables).(categories := old(db.tables.categories)[r.value :=
                AttachedCategory(category, boardId.value, old(db.tables.categories[r.value].createdAt), Some(now))]),
                r.value)
  {
    var board := FindBoard(db.tables, boardId);
    if board.Failure? {
      return Failure(board.error);
    }
    var b := boardId.value;
    if category.id.Some? && category.id.value in CategoriesOf(db.tables, b) {
      return Success(category.id.value);
    }
    if category.name.None? {
      return Failure(PersistenceFailure);
    }
    if category.id.None? {
      var id := db.NewId();
      db.PutCategory(id, AttachedCategory(category, b, now, None));
      return Success(id);
    }
    var existing := FindCategory(db.tables, category.id);
    if existing.Failure? {
      return Failure(PersistenceFailure);
    }
    db.PutCategory(category.id.value, AttachedCategory(category, b, existing.value.createdAt, Some(now)));
    db.tables := ClearTasks(db.tables, category.id.value);
    return Success(category.id.value);
  }

  /**
   * removeCategoryFromBoard: board.removeCategory(category), then save(board). A category the
   * board holds is deleted as an orphan, its tasks with it; any other category changes nothing.
   */
  method RemoveCategoryFromBoard(db: Database, boardId: Option<int>, category: CategoryData)
    returns (r: Outcome<Failure>)
    requires db.Valid()
    modifies db`tables
    ensures db.Valid()
    ensures r.Pass? <==> boardId.Some? && boardId.value in old(db.tables.boards)
    ensures r.Fail? ==> r == Found(FindBoard(old(db.tables), boardId)) && db.tables == old(db.tables)
    ensures r.Pass? ==> category.id.None? || category.id.value !in CategoriesOf(db.tables, boardId.value)
    ensures r.Pass? && category.id.Some? && category.id.value in CategoriesOf(old(db.tables), boardId.value) ==>
              db.tables == DeleteCategoryRow(old(db.tables), category.id.value)
    ensures r.Pass? && (category.id.None? || category.id.value !in CategoriesOf(old(db.tables), boardId.value)) ==>
              db.tables == old(db.tables)
  {
    var board := FindBoard(db.tables, boardId);
    if board.Failure? {
      return Fail(board.error);
    }
    if category.id.Some? && category.id.value in CategoriesOf(db.tables, boardId.value) {
      db.tables := DeleteCategoryRow(db.tables, category.id.value);
    }
    return Pass;
  }

  // ---- properties ----

  /** A board without a description is accepted: validateBoard never looks at it. */
  lemma DescriptionIsNotRequired(t: Tables, board: BoardData)
    requires CreateBoardGuard(t, board).Pass?
    ensures CreateBoardGuard(t, board.(description := None)).Pass?
  {
  }

  /** Merging the same incoming board twice is the same as merging it once. */
  lemma MergeBoardIsIdempotent(row: BoardRow, board: BoardData, owner: int)
    ensures MergeBoard(MergeBoard(row, board, owner), board, owner) == MergeBoard(row, board, owner)
  {
  }

  /** A null name in updateBoard keeps the stored one; a present one replaces it. */
  lemma MergeBoardTakesPresentName(row: BoardRow, board: BoardData, owner: int)
    ensures board.name.None? ==> MergeBoard(row, board, owner).name == row.name
    ensures board.name.Some? ==> MergeBoard(row, board, owner).name == board.name.value
  {
  }

  /** A null description in updateBoard keeps the stored one; a present one replaces it. */
  lemma MergeBoardKeepsAbsentDescription(row: BoardRow, board: BoardData, owner: int)
    ensures board.description.None? ==> MergeBoard(row, board, owner).description == row.description
    ensures board.description.Some? ==> MergeBoard(row, board, owner).description == board.description
  {
  }

  /**
   * After a board is deleted nothing refers to it: no category names it, and no task lies in a
   * category that did.
   */
  lemma {:induction false} DeletedBoardLeavesNoTrace(t: Tables, k: int)
    requires Consistent(t)
    ensures CategoriesOf(DeleteBoardRow(t, k), k) == {}
    ensures forall j :: j in DeleteBoardRow(t, k).tasks ==> t.tasks[j].category !in CategoriesOf(t, k)
  {
    var r := DeleteBoardRow(t, k);
    forall c | c in r.categories ensures r.categories[c].board != k {
    }
  }

  /** Deleting a board twice is deleting it once; deleteBoard is idempotent. */
  lemma DeleteBoardIsIdempotent(t: Tables, k: int)
    ensures DeleteBoardRow(DeleteBoardRow(t, k), k) == DeleteBoardRow(t, k)
  {
    var once := DeleteBoardRow(t, k);
    var twice := DeleteBoardRow(once, k);
    assert twice.categories == once.categories;
    assert twice.tasks == once.tasks;
  }

  /** A category the board already holds makes addCategoryToBoard a no-op. */
  lemma AddCategoryTwiceIsNoOp(t: Tables, board: int, category: CategoryData)
    requires category.id.Some? && category.id.value in CategoriesOf(t, board) && board in t.boards
    ensures AddCategoryGuard(t, Some(board), category).Pass?
  {
  }
}
