/** The synchronisation hook: in-memory boards, lists and tasks, optimistic writes with a
    version bump, board cascade delete, realtime ingestion, conflict notices and the
    loading/syncing/offline flags. Every remote or storage answer is a parameter. */
module SyncEngine {
  import opened Common
  import opened Records
  import Text

  datatype Table = Boards | Lists | Tasks

  datatype SyncState = SyncState(
    boards: seq<Record>,
    lists: seq<Record>,
    tasks: seq<Record>,
    loading: bool,
    syncing: bool,
    offline: bool,
    lastSync: Option<int>)
  {
    function Rows(t: Table): seq<Record> {
      match t
      case Boards => boards
      case Lists => lists
      case Tasks => tasks
    }

    /** `{ ...prev, [table]: rows }`. */
    function WithRows(t: Table, rows: seq<Record>): (r: SyncState)
      ensures r.Rows(t) == rows
      ensures forall u :: u != t ==> r.Rows(u) == Rows(u)
      ensures r.loading == loading && r.syncing == syncing
      ensures r.offline == offline && r.lastSync == lastSync
    {
      match t
      case Boards => this.(boards := rows)
      case Lists => this.(lists := rows)
      case Tasks => this.(tasks := rows)
    }
  }

  /** Who is acting, as the identity hook reports it: `profile?.id` and `isGuest`. */
  datatype Actor = Actor(userId: Option<string>, isGuest: bool)

  /** An authenticated user: the only actor whose edits reach the remote store. */
  predicate Remote(a: Actor) {
    Truthy(a.userId) && !a.isGuest
  }

  function InitialState(online: bool): (s: SyncState)
    ensures s.loading && !s.syncing && s.offline == !online && s.lastSync == None
  {
    SyncState([], [], [], true, false, !online, None)
  }

  // ---------------------------------------------------------------------------
  // Creation defaults

  /** Fields the caller may not pass when creating a row (the `Omit<...>` of the create calls). */
  const ReservedKeys: set<string> := {"id", "user_id", "created_at", "updated_at", "version"}

  function Stamp(id: string, userId: string, now: string): Record {
    map["id" := Str(id), "user_id" := Str(userId), "created_at" := Str(now),
        "updated_at" := Str(now), "version" := Num(1)]
  }

  /** The row `createBoard` and `createList` build: version 1, owned by the acting user,
      carrying every caller field unchanged. */
  function NewRow(fields: Record, id: string, userId: string, now: string): (r: Record)
    requires fields.Keys !! ReservedKeys
    ensures r.Keys == fields.Keys + ReservedKeys
    ensures HasId(r, id) && r["user_id"] == Str(userId)
    ensures Versioned(r) && VersionOf(r) == 1
    ensures r["created_at"] == Str(now) && r["updated_at"] == Str(now)
    ensures forall k :: k in fields ==> r[k] == fields[k]
  {
    Overlay(Stamp(id, userId, now), fields)
  }

  const TaskDefaults: Record := map["completed" := Bool(false), "priority" := Str("medium"),
    "labels" := Strs([]), "description" := Null, "due_date" := Null]

  /** The row `createTask` builds: like `NewRow`, plus defaults the caller's fields override. */
  function NewTask(fields: Record, id: string, userId: string, now: string): (r: Record)
    requires fields.Keys !! ReservedKeys
    ensures r.Keys == fields.Keys + ReservedKeys + TaskDefaults.Keys
    ensures HasId(r, id) && r["user_id"] == Str(userId)
    ensures Versioned(r) && VersionOf(r) == 1
    ensures forall k :: k in fields ==> r[k] == fields[k]
    ensures forall k :: k in TaskDefaults && k !in fields ==> r[k] == TaskDefaults[k]
  {
    TaskBase(id, userId, now);
    Overlay(Overlay(Stamp(id, userId, now), TaskDefaults), fields)
  }

  /** The stamp with the task defaults laid over it: the defaults touch none of the stamp's
      identity and version fields. */
  lemma TaskBase(id: string, userId: string, now: string)
    ensures var base := Overlay(Stamp(id, userId, now), TaskDefaults);
      && base.Keys == ReservedKeys + TaskDefaults.Keys
      && base["id"] == Str(id) && base["user_id"] == Str(userId) && base["version"] == Num(1)
      && forall k :: k in TaskDefaults ==> base[k] == TaskDefaults[k]
  {
    var stamp := Stamp(id, userId, now);
    assert "id" !in TaskDefaults && "user_id" !in TaskDefaults && "version" !in TaskDefaults;
    assert stamp.Keys == ReservedKeys;
  }

  /** A new task is incomplete, of medium priority, unlabelled, and without description or due
      date, except where the caller's fields say otherwise. */
  lemma NewTaskDefaults(fields: Record, id: string, userId: string, now: string)
    requires fields.Keys !! ReservedKeys
    ensures var r := NewTask(fields, id, userId, now);
      && ("completed" !in fields ==> r["completed"] == Bool(false))
      && ("priority" !in fields ==> r["priority"] == Str("medium"))
      && ("labels" !in fields ==> r["labels"] == Strs([]))
      && ("description" !in fields ==> r["description"] == Null)
      && ("due_date" !in fields ==> r["due_date"] == Null)
  {
    DefaultValues();
  }

  lemma DefaultValues()
    ensures "completed" in TaskDefaults && TaskDefaults["completed"] == Bool(false)
    ensures "priority" in TaskDefaults && TaskDefaults["priority"] == Str("medium")
    ensures "labels" in TaskDefaults && TaskDefaults["labels"] == Strs([])
    ensures "description" in TaskDefaults && TaskDefaults["description"] == Null
    ensures "due_date" in TaskDefaults && TaskDefaults["due_date"] == Null
  {
  }

  // ---------------------------------------------------------------------------
  // Optimistic writes

  /** The answer to the remote upsert: the stored row, or an error (which is only logged). */
  datatype WriteOutcome = Saved(row: Record) | Rejected

  /** The state after an operation and the row sent to the remote store, if any. */
  datatype Effect = Effect(state: SyncState, sent: Option<Record>)

  /** `{ ...item, version: item.version + 1, updated_at: now }`: the outgoing row. */
  function Bumped(item: Record, now: string): (r: Record)
    requires Versioned(item)
    ensures r.Keys == item.Keys + {"updated_at"}
    ensures Versioned(r) && VersionOf(r) == VersionOf(item) + 1
    ensures r["updated_at"] == Str(now) && SameId(r, item)
    ensures forall k :: k in item && k != "version" && k != "updated_at" ==> r[k] == item[k]
  {
    item["version" := Num(VersionOf(item) + 1)]["updated_at" := Str(now)]
  }

  /** What the write's answer does to the table holding the optimistic value: success swaps in
      the stored row wherever its id occurs; failure removes every row with the item's id. */
  function Settle(rows: seq<Record>, item: Record, outcome: WriteOutcome): (r: seq<Record>)
    ensures outcome.Saved? ==> |r| == |rows|
    ensures outcome.Saved? ==> forall i :: 0 <= i < |rows| ==>
      r[i] == if SameId(rows[i], outcome.row) then outcome.row else rows[i]
    ensures outcome.Rejected? ==> forall i :: 0 <= i < |r| ==> !SameId(r[i], item)
    ensures outcome.Rejected? ==> forall x :: x in r <==> x in rows && !SameId(x, item)
    ensures outcome.Rejected? ==> Selects(r, rows, x => !SameId(x, item))
  {
    match outcome
    case Saved(row) => ReplaceWhere(rows, x => SameId(x, row), row)
    case Rejected => Filter(rows, x => !SameId(x, item))
  }

  /** `optimisticUpdate`: the reducer reaches the in-memory table first; a guest stops there; an
      authenticated user also sends the bumped row and settles the table with the answer. */
  function OptimisticUpdate(s: SyncState, actor: Actor, table: Table, item: Record,
                            update: seq<Record> -> seq<Record>, now: string,
                            outcome: WriteOutcome): (e: Effect)
    requires Versioned(item)
    ensures !Truthy(actor.userId) ==> e == Effect(s, None)
    ensures Truthy(actor.userId) && actor.isGuest ==>
      e.sent == None && e.state == s.WithRows(table, update(s.Rows(table)))
    ensures Remote(actor) ==> e.sent == Some(Bumped(item, now))
    ensures Remote(actor) ==>
      e.state == s.WithRows(table, Settle(update(s.Rows(table)), item, outcome))
    ensures Truthy(actor.userId) ==> forall u :: u != table ==> e.state.Rows(u) == s.Rows(u)
  {
    if !Truthy(actor.userId) then Effect(s, None)
    else
      var optimistic := s.WithRows(table, update(s.Rows(table)));
      if actor.isGuest then Effect(optimistic, None)
      else Effect(optimistic.WithRows(table, Settle(optimistic.Rows(table), item, outcome)),
                  Some(Bumped(item, now)))
  }

  /** No row of `rows` shares an id with `row`. */
  predicate Fresh(rows: seq<Record>, row: Record) {
    forall i :: 0 <= i < |rows| ==> !SameId(rows[i], row)
  }

  /** The create operations: append the new row optimistically. */
  function Create(s: SyncState, actor: Actor, table: Table, row: Record, now: string,
                  outcome: WriteOutcome): (e: Effect)
    requires Versioned(row)
    ensures !Truthy(actor.userId) ==> e == Effect(s, None)
    ensures Truthy(actor.userId) && actor.isGuest ==>
      e.sent == None && e.state.Rows(table) == s.Rows(table) + [row]
    ensures Remote(actor) ==> e.sent.Some? && Versioned(e.sent.value)
    ensures Remote(actor) ==> VersionOf(e.sent.value) == VersionOf(row) + 1
    ensures Remote(actor) ==> e.sent == Some(Bumped(row, now))
    ensures Remote(actor) ==> e.state == s.WithRows(table, Settle(s.Rows(table) + [row], row, outcome))
    ensures forall u :: u != table ==> e.state.Rows(u) == s.Rows(u)
  {
    OptimisticUpdate(s, actor, table, row, rows => rows + [row], now, outcome)
  }

  /** An accepted create under a fresh id ends with the stored row appended to the table. */
  lemma CreateSavedAppends(s: SyncState, actor: Actor, table: Table, row: Record, now: string,
                           stored: Record)
    requires Versioned(row) && Remote(actor)
    requires Fresh(s.Rows(table), row) && SameId(stored, row)
    ensures Create(s, actor, table, row, now, Saved(stored)).state.Rows(table) == s.Rows(table) + [stored]
  {
    var rows := s.Rows(table);
    var e := Create(s, actor, table, row, now, Saved(stored));
    assert e.state.Rows(table) == Settle(rows + [row], row, Saved(stored));
    assert e.state.Rows(table) == rows + [stored];
  }

  /** A rejected create under a fresh id leaves the whole state as it was: for a new row the
      rollback-by-removal is an exact undo. */
  lemma CreateRejectedRestores(s: SyncState, actor: Actor, table: Table, row: Record, now: string)
    requires Versioned(row) && Remote(actor)
    requires Fresh(s.Rows(table), row)
    ensures Create(s, actor, table, row, now, Rejected).state == s
  {
    var rows := s.Rows(table);
    var e := Create(s, actor, table, row, now, Rejected);
    assert e.state.Rows(table) == Filter(rows + [row], x => !SameId(x, row));
    FilterAppend(rows, [row], x => !SameId(x, row));
    FilterKeepsAll(rows, x => !SameId(x, row));
    assert e.state.Rows(table) == rows;
    assert e.state == s.WithRows(table, rows);
    assert s.WithRows(table, rows) == s;
  }

  /** `createBoard`: a new row of the acting user, appended optimistically. */
  function CreateBoard(s: SyncState, actor: Actor, fields: Record, id: string, now: string,
                       outcome: WriteOutcome): (e: Effect)
    requires fields.Keys !! ReservedKeys
    ensures !Truthy(actor.userId) ==> e == Effect(s, None)
    ensures Truthy(actor.userId) && actor.isGuest ==>
      e == Effect(s.(boards := s.boards + [NewRow(fields, id, actor.userId.value, now)]), None)
    ensures Remote(actor) ==> e.sent == Some(Bumped(NewRow(fields, id, actor.userId.value, now), now))
    ensures Remote(actor) ==>
      var row := NewRow(fields, id, actor.userId.value, now);
      e.state == s.(boards := Settle(s.boards + [row], row, outcome))
    ensures e.state.lists == s.lists && e.state.tasks == s.tasks
  {
    if !Truthy(actor.userId) then Effect(s, None)
    else
      var row := NewRow(fields, id, actor.userId.value, now);
      assert s.Rows(Boards) == s.boards;
      Create(s, actor, Boards, row, now, outcome)
  }

  /** `createList`: the same for a list. */
  function CreateList(s: SyncState, actor: Actor, fields: Record, id: string, now: string,
                      outcome: WriteOutcome): (e: Effect)
    requires fields.Keys !! ReservedKeys
    ensures !Truthy(actor.userId) ==> e == Effect(s, None)
    ensures Truthy(actor.userId) && actor.isGuest ==>
      e == Effect(s.(lists := s.lists + [NewRow(fields, id, actor.userId.value, now)]), None)
    ensures Remote(actor) ==> e.sent == Some(Bumped(NewRow(fields, id, actor.userId.value, now), now))
    ensures Remote(actor) ==>
      var row := NewRow(fields, id, actor.userId.value, now);
      e.state == s.(lists := Settle(s.lists + [row], row, outcome))
    ensures e.state.boards == s.boards && e.state.tasks == s.tasks
  {
    if !Truthy(actor.userId) then Effect(s, None)
    else
      var row := NewRow(fields, id, actor.userId.value, now);
      assert s.Rows(Lists) == s.lists;
      Create(s, actor, Lists, row, now, outcome)
  }

  /** `createTask`: the same for a task, whose row also carries the task defaults. */
  function CreateTask(s: SyncState, actor: Actor, fields: Record, id: string, now: string,
                      outcome: WriteOutcome): (e: Effect)
    requires fields.Keys !! ReservedKeys
    ensures !Truthy(actor.userId) ==> e == Effect(s, None)
    ensures Truthy(actor.userId) && actor.isGuest ==>
      e == Effect(s.(tasks := s.tasks + [NewTask(fields, id, actor.userId.value, now)]), None)
    ensures Remote(actor) ==> e.sent == Some(Bumped(NewTask(fields, id, actor.userId.value, now), now))
    ensures Remote(actor) ==>
      var row := NewTask(fields, id, actor.userId.value, now);
      e.state == s.(tasks := Settle(s.tasks + [row], row, outcome))
    ensures e.state.boards == s.boards && e.state.lists == s.lists
  {
    if !Truthy(actor.userId) then Effect(s, None)
    else
      var row := NewTask(fields, id, actor.userId.value, now);
      assert s.Rows(Tasks) == s.tasks;
      Create(s, actor, Tasks, row, now, outcome)
  }

  /** A signed-in board create under a fresh id either ends with the stored row appended or,
      when the write is rejected, leaves the whole state as it was. */
  lemma CreateBoardSettles(s: SyncState, actor: Actor, fields: Record, id: string, now: string,
                           outcome: WriteOutcome)
    requires fields.Keys !! ReservedKeys && Remote(actor)
    requires Fresh(s.boards, NewRow(fields, id, actor.userId.value, now))
    requires outcome.Saved? ==> SameId(outcome.row, NewRow(fields, id, actor.userId.value, now))
    ensures var e := CreateBoard(s, actor, fields, id, now, outcome);
      && (outcome.Rejected? ==> e.state == s)
      && (outcome.Saved? ==> e.state.boards == s.boards + [outcome.row])
  {
    var row := NewRow(fields, id, actor.userId.value, now);
    assert s.Rows(Boards) == s.boards;
    if outcome.Rejected? {
      CreateRejectedRestores(s, actor, Boards, row, now);
    } else {
      CreateSavedAppends(s, actor, Boards, row, now, outcome.row);
    }
  }

  /** An authenticated create sends version 2: the creation default is bumped on the way out,
      and a guest's create appends exactly the new row. */
  lemma CreateBoardVersions(s: SyncState, actor: Actor, fields: Record, id: string, now: string,
                            outcome: WriteOutcome)
    requires fields.Keys !! ReservedKeys
    requires Truthy(actor.userId)
    ensures var e := CreateBoard(s, actor, fields, id, now, outcome);
      (Remote(actor) ==> e.sent.Some? && VersionOf(e.sent.value) == 2 && HasId(e.sent.value, id))
      && (actor.isGuest ==> |e.state.boards| == |s.boards| + 1 && HasId(e.state.boards[|s.boards|], id))
  {
    var row := NewRow(fields, id, actor.userId.value, now);
    var e := CreateBoard(s, actor, fields, id, now, outcome);
    if Remote(actor) {
      assert e.sent == Some(Bumped(row, now));
    }
  }

  // ---------------------------------------------------------------------------
  // Board edit and cascade delete

  /** `{ ...board, ...updates, updated_at: now }`. */
  function EditedBoard(board: Record, updates: Record, now: string): (r: Record)
    ensures r.Keys == board.Keys + updates.Keys + {"updated_at"}
    ensures r["updated_at"] == Str(now)
    ensures forall k :: k in updates && k != "updated_at" ==> r[k] == updates[k]
    ensures forall k :: k in board && k !in updates && k != "updated_at" ==> r[k] == board[k]
  {
    Overlay(Overlay(board, updates), map["updated_at" := Str(now)])
  }

  /** Every stored board carries a numeric version, as the board row type promises. */
  predicate BoardsVersioned(s: SyncState) {
    forall i :: 0 <= i < |s.boards| ==> Versioned(s.boards[i])
  }

  /** `boards.find(b => b.id === id)`. */
  function FindBoard(boards: seq<Record>, id: string): (r: Option<Record>)
    ensures r.Some? ==> r.value in boards && HasId(r.value, id)
    ensures r.Some? ==> exists i :: 0 <= i < |boards| && boards[i] == r.value && forall j :: 0 <= j < i ==> !HasId(boards[j], id)
    ensures r.None? <==> forall i :: 0 <= i < |boards| ==> !HasId(boards[i], id)
  {
    Find(boards, b => HasId(b, id))
  }

  /** The reducer `updateBoard` hands to the optimistic write: only boards with that id change. */
  function ReplaceBoard(boards: seq<Record>, id: string, edited: Record): (r: seq<Record>)
    ensures |r| == |boards|
    ensures forall i :: 0 <= i < |boards| ==> r[i] == if HasId(boards[i], id) then edited else boards[i]
  {
    ReplaceWhere(boards, b => HasId(b, id), edited)
  }

  /** `updateBoard`: an unknown id (or no user) changes nothing and sends nothing; otherwise the
      first board with that id, overlaid with the updates, replaces every board with that id. */
  function UpdateBoard(s: SyncState, actor: Actor, id: string, updates: Record, now: string,
                       outcome: WriteOutcome): (e: Effect)
    requires BoardsVersioned(s)
    requires "version" in updates ==> updates["version"].Num?
    ensures !Truthy(actor.userId) || FindBoard(s.boards, id).None? ==> e == Effect(s, None)
    ensures Truthy(actor.userId) && actor.isGuest && FindBoard(s.boards, id).Some? ==>
      e == Effect(s.(boards := ReplaceBoard(s.boards, id, EditedBoard(FindBoard(s.boards, id).value, updates, now))), None)
    ensures Remote(actor) && FindBoard(s.boards, id).Some? ==>
      e.sent == Some(Bumped(EditedBoard(FindBoard(s.boards, id).value, updates, now), now))
    ensures Remote(actor) && FindBoard(s.boards, id).Some? ==>
      var edited := EditedBoard(FindBoard(s.boards, id).value, updates, now);
      e.state == s.(boards := Settle(ReplaceBoard(s.boards, id, edited), edited, outcome))
    ensures e.state.lists == s.lists && e.state.tasks == s.tasks
  {
    if !Truthy(actor.userId) then Effect(s, None)
    else
      match FindBoard(s.boards, id)
      case None => Effect(s, None)
      case Some(board) =>
        var edited := EditedBoard(board, updates, now);
        assert Versioned(board) by {
          var i :| 0 <= i < |s.boards| && s.boards[i] == board;
        }
        OptimisticUpdate(s, actor, Boards, edited, rows => ReplaceBoard(rows, id, edited), now, outcome)
  }

  /** The authenticated edit sends the found board's version plus one (unless the updates
      themselves carry a version). */
  lemma UpdateBoardSendsNextVersion(s: SyncState, actor: Actor, id: string, updates: Record,
                                    now: string, outcome: WriteOutcome)
    requires BoardsVersioned(s) && Remote(actor) && FindBoard(s.boards, id).Some?
    requires "version" !in updates
    ensures var e := UpdateBoard(s, actor, id, updates, now, outcome);
      e.sent.Some? && Versioned(e.sent.value) &&
      VersionOf(e.sent.value) == VersionOf(FindBoard(s.boards, id).value) + 1
  {
    var board := FindBoard(s.boards, id).value;
    var i :| 0 <= i < |s.boards| && s.boards[i] == board;
    assert Versioned(board);
    var edited := EditedBoard(board, updates, now);
    assert "version" != "updated_at";
    assert edited["version"] == board["version"];
  }

  /** A rejected signed-in edit does not restore the board: no board with that id is left in
      memory. */
  lemma UpdateRejectedDropsBoard(s: SyncState, actor: Actor, id: string, updates: Record, now: string)
    requires BoardsVersioned(s) && Remote(actor) && FindBoard(s.boards, id).Some?
    requires "id" !in updates && ("version" in updates ==> updates["version"].Num?)
    ensures forall b :: b in UpdateBoard(s, actor, id, updates, now, Rejected).state.boards ==> !HasId(b, id)
  {
    var edited := EditedBoard(FindBoard(s.boards, id).value, updates, now);
    assert HasId(edited, id);
    var kept := Settle(ReplaceBoard(s.boards, id, edited), edited, Rejected);
    assert UpdateBoard(s, actor, id, updates, now, Rejected).state.boards == kept;
    forall b | b in kept ensures !HasId(b, id) {
      assert !SameId(b, edited);
    }
  }

  /** `l.board_id === id`. */
  predicate InBoard(l: Record, id: string) {
    Field(l, "board_id") == Some(Str(id))
  }

  /** `lists.some(l => l.id === t.list_id)`. */
  predicate InSomeList(t: Record, lists: seq<Record>) {
    exists j :: 0 <= j < |lists| && Field(lists[j], "id") == Field(t, "list_id")
  }

  /** The remote deletes `deleteBoard` issues (their errors are only logged). */
  datatype RemoteDelete =
    | DeleteTasksInLists(listIds: seq<Option<Value>>)
    | DeleteListsOfBoard(boardId: string)
    | DeleteBoardRow(id: string)

  datatype DeleteRun = DeleteRun(state: SyncState, requests: seq<RemoteDelete>)

  /** `rows.map(r => r.id)`, a missing id read as `undefined`. */
  function IdsOf(rows: seq<Record>): (ids: seq<Option<Value>>)
    ensures |ids| == |rows|
    ensures forall i :: 0 <= i < |rows| ==> ids[i] == Field(rows[i], "id")
  {
    seq(|rows|, i requires 0 <= i < |rows| => Field(rows[i], "id"))
  }

  /** `deleteBoard`: the board, its lists and the tasks of those lists leave memory at once; an
      authenticated user also issues the three remote deletes, whose failure rolls nothing back. */
  function DeleteBoard(s: SyncState, actor: Actor, id: string): (d: DeleteRun)
    ensures !Truthy(actor.userId) ==> d == DeleteRun(s, [])
    ensures Truthy(actor.userId) ==> forall b :: b in d.state.boards <==> b in s.boards && !HasId(b, id)
    ensures Truthy(actor.userId) ==> forall l :: l in d.state.lists <==> l in s.lists && !InBoard(l, id)
    ensures Truthy(actor.userId) ==> forall t :: t in d.state.tasks <==>
      t in s.tasks && !InSomeList(t, Filter(s.lists, l => InBoard(l, id)))
    ensures Truthy(actor.userId) ==> Selects(d.state.boards, s.boards, b => !HasId(b, id))
    ensures Truthy(actor.userId) ==> Selects(d.state.lists, s.lists, l => !InBoard(l, id))
    ensures Truthy(actor.userId) ==>
      Selects(d.state.tasks, s.tasks, t => !InSomeList(t, Filter(s.lists, l => InBoard(l, id))))
    ensures d.state.loading == s.loading && d.state.syncing == s.syncing
    ensures d.state.offline == s.offline && d.state.lastSync == s.lastSync
    ensures Remote(actor) ==>
      d.requests == [DeleteTasksInLists(IdsOf(Filter(s.lists, l => InBoard(l, id)))), DeleteListsOfBoard(id), DeleteBoardRow(id)]
    ensures !Remote(actor) ==> d.requests == []
  {
    if !Truthy(actor.userId) then DeleteRun(s, [])
    else
      var boardLists := Filter(s.lists, l => InBoard(l, id));
      var state := s.(boards := Filter(s.boards, b => !HasId(b, id)),
                      lists := Filter(s.lists, l => !InBoard(l, id)),
                      tasks := Filter(s.tasks, t => !InSomeList(t, boardLists)));
      var requests :=
        if actor.isGuest then []
        else [DeleteTasksInLists(IdsOf(boardLists)), DeleteListsOfBoard(id), DeleteBoardRow(id)];
      DeleteRun(state, requests)
  }

  /** Every row of `children` names, in field `link`, the id of some row of `parents`. */
  ghost predicate Linked(children: seq<Record>, link: string, parents: seq<Record>) {
    forall i :: 0 <= i < |children| ==>
      exists j :: 0 <= j < |parents| && Field(parents[j], "id") == Field(children[i], link)
  }

  /** Every list names a live board and every task a live list. */
  ghost predicate Intact(s: SyncState) {
    Linked(s.lists, "board_id", s.boards) && Linked(s.tasks, "list_id", s.lists)
  }

  /** Removing children keeps them linked, and so does removing parents no survivor links to. */
  lemma LinkedAfterFilter(children: seq<Record>, link: string, parents: seq<Record>,
                          keepChild: Record -> bool, keepParent: Record -> bool)
    requires Linked(children, link, parents)
    requires forall i, j :: (0 <= i < |children| && 0 <= j < |parents| && keepChild(children[i])
      && Field(parents[j], "id") == Field(children[i], link)) ==> keepParent(parents[j])
    ensures Linked(Filter(children, keepChild), link, Filter(parents, keepParent))
  {
    var cs := Filter(children, keepChild);
    var ps := Filter(parents, keepParent);
    forall i | 0 <= i < |cs|
      ensures exists j :: 0 <= j < |ps| && Field(ps[j], "id") == Field(cs[i], link)
    {
      var c := cs[i];
      assert c in children && keepChild(c);
      var i0 :| 0 <= i0 < |children| && children[i0] == c;
      var j0 :| 0 <= j0 < |parents| && Field(parents[j0], "id") == Field(children[i0], link);
      var j1 := SurvivorIndex(parents, keepParent, j0);
      assert Field(ps[j1], "id") == Field(c, link);
    }
  }

  /** A row passing the test keeps a place in the filtered table. */
  lemma SurvivorIndex(rows: seq<Record>, keep: Record -> bool, j: int) returns (k: int)
    requires 0 <= j < |rows| && keep(rows[j])
    ensures 0 <= k < |Filter(rows, keep)| && Filter(rows, keep)[k] == rows[j]
  {
    assert rows[j] in Filter(rows, keep);
    k :| 0 <= k < |Filter(rows, keep)| && Filter(rows, keep)[k] == rows[j];
  }

  /** A list of the board is among that board's lists. */
  lemma ListOfBoardIsListed(lists: seq<Record>, id: string, j: int)
    requires 0 <= j < |lists|
    ensures InBoard(lists[j], id) ==> lists[j] in Filter(lists, l => InBoard(l, id))
  {
  }

  /** The remote task delete targets exactly the tasks that left memory: a task is dropped
      locally if and only if its list id is among the list ids sent. */
  lemma RemoteDeleteMatchesLocal(s: SyncState, actor: Actor, id: string, t: Record)
    requires Remote(actor) && t in s.tasks
    ensures var d := DeleteBoard(s, actor, id);
      t !in d.state.tasks <==> Field(t, "list_id") in d.requests[0].listIds
  {
    var boardLists := Filter(s.lists, l => InBoard(l, id));
    var ids := IdsOf(boardLists);
    if InSomeList(t, boardLists) {
      var j :| 0 <= j < |boardLists| && Field(boardLists[j], "id") == Field(t, "list_id");
      assert ids[j] == Field(t, "list_id");
    }
    if Field(t, "list_id") in ids {
      var j :| 0 <= j < |ids| && ids[j] == Field(t, "list_id");
      assert Field(boardLists[j], "id") == Field(t, "list_id");
    }
  }

  /** Cascade delete leaves no orphan: a state in which every child has a live parent keeps
      that property after a board is deleted. */
  lemma DeleteBoardKeepsIntact(s: SyncState, actor: Actor, id: string)
    requires Intact(s)
    ensures Intact(DeleteBoard(s, actor, id).state)
  {
    if Truthy(actor.userId) {
      var boardLists := Filter(s.lists, l => InBoard(l, id));
      LinkedAfterFilter(s.lists, "board_id", s.boards, l => !InBoard(l, id), b => !HasId(b, id));
      forall i, j | 0 <= i < |s.tasks| && 0 <= j < |s.lists| && !InSomeList(s.tasks[i], boardLists)
          && Field(s.lists[j], "id") == Field(s.tasks[i], "list_id")
        ensures !InBoard(s.lists[j], id)
      {
        ListOfBoardIsListed(s.lists, id, j);
      }
      LinkedAfterFilter(s.tasks, "list_id", s.lists, t => !InSomeList(t, boardLists), l => !InBoard(l, id));
    }
  }

  // ---------------------------------------------------------------------------
  // Realtime ingestion (the source subscribes to the boards table only)

  datatype Change = Insert(newRow: Record) | Update(newRow: Record) | Delete(oldRow: Record)

  /** One change-feed event applied to a table: inserts append without de-duplication, updates
      replace rows with the new row's id in place, deletes drop every row with the old row's id. */
  function ApplyChange(rows: seq<Record>, c: Change): (r: seq<Record>)
    ensures c.Insert? ==> r == rows + [c.newRow]
    ensures c.Update? ==> |r| == |rows|
    ensures c.Update? ==> forall i :: 0 <= i < |rows| ==>
      r[i] == if SameId(rows[i], c.newRow) then c.newRow else rows[i]
    ensures c.Delete? ==> forall x :: x in r <==> x in rows && !SameId(x, c.oldRow)
    ensures c.Delete? ==> Selects(r, rows, b => !SameId(b, c.oldRow))
  {
    match c
    case Insert(row) => rows + [row]
    case Update(row) => ReplaceWhere(rows, b => SameId(b, row), row)
    case Delete(row) => Filter(rows, b => !SameId(b, row))
  }

  /** The boards channel exists only for an authenticated user. */
  function IngestBoardChange(s: SyncState, actor: Actor, c: Change): (r: SyncState)
    ensures !Remote(actor) ==> r == s
    ensures Remote(actor) ==> r == s.(boards := ApplyChange(s.boards, c))
  {
    if Remote(actor) then s.(boards := ApplyChange(s.boards, c)) else s
  }

  /** Deleting what was just inserted under a fresh id restores the table exactly. */
  lemma InsertThenDelete(rows: seq<Record>, row: Record)
    requires Fresh(rows, row)
    ensures ApplyChange(ApplyChange(rows, Insert(row)), Delete(row)) == rows
  {
    FilterAppend(rows, [row], b => !SameId(b, row));
    FilterKeepsAll(rows, b => !SameId(b, row));
  }

  /** Replaying a delete or an update event changes nothing more. */
  lemma ReplayIsHarmless(rows: seq<Record>, c: Change)
    requires !c.Insert?
    ensures ApplyChange(ApplyChange(rows, c), c) == ApplyChange(rows, c)
  {
    if c.Delete? {
      FilterIdempotent(rows, b => !SameId(b, c.oldRow));
    }
  }

  // ---------------------------------------------------------------------------
  // Conflict notices

  datatype EntityKind = BoardEntity | ListEntity | TaskEntity

  function KindName(k: EntityKind): string {
    match k
    case BoardEntity => "board"
    case ListEntity => "list"
    case TaskEntity => "task"
  }

  datatype ConflictNotice = ConflictNotice(id: string, kind: EntityKind, itemId: string,
                                           message: string, timestamp: nat)

  /** `${type}-${itemId}-${Date.now()}`. */
  function NoticeId(kind: EntityKind, itemId: string, now: nat): string {
    KindName(kind) + "-" + itemId + "-" + Text.NatToString(now)
  }

  /** Notices for the same item raised at different instants carry different ids. */
  lemma NoticeIdsDiffer(kind: EntityKind, itemId: string, t1: nat, t2: nat)
    requires t1 != t2
    ensures NoticeId(kind, itemId, t1) != NoticeId(kind, itemId, t2)
  {
    var p := KindName(kind) + "-" + itemId + "-";
    if NoticeId(kind, itemId, t1) == NoticeId(kind, itemId, t2) {
      assert (p + Text.NatToString(t1))[|p|..] == Text.NatToString(t1);
      assert (p + Text.NatToString(t2))[|p|..] == Text.NatToString(t2);
      Text.NatToStringInjective(t1, t2);
    }
  }

  /** `handleConflict`: appends exactly one notice and keeps the earlier ones as they were. */
  function HandleConflict(cs: seq<ConflictNotice>, kind: EntityKind, itemId: string,
                          now: nat): (r: seq<ConflictNotice>)
    ensures |r| == |cs| + 1 && r[..|cs|] == cs
    ensures r[|cs|].id == NoticeId(kind, itemId, now)
    ensures r[|cs|].kind == kind && r[|cs|].itemId == itemId && r[|cs|].timestamp == now
  {
    var message := "Your " + KindName(kind) + " was updated on another device. Latest changes have been applied.";
    cs + [ConflictNotice(NoticeId(kind, itemId, now), kind, itemId, message, now)]
  }

  /** `dismissConflict`, and also what the ten-second timer does with the notice's own id:
      removes exactly the notices with that id and keeps the rest in order. */
  function DismissConflict(cs: seq<ConflictNotice>, id: string): (r: seq<ConflictNotice>)
    ensures forall c :: c in r <==> c in cs && c.id != id
    ensures forall i :: 0 <= i < |r| ==> r[i].id != id
    ensures Selects(r, cs, (c: ConflictNotice) => c.id != id)
  {
    Filter(cs, (c: ConflictNotice) => c.id != id)
  }

  /** A notice that expires (or is dismissed) right after it was raised leaves the list as
      before, provided its id was new. */
  lemma HandleThenExpire(cs: seq<ConflictNotice>, kind: EntityKind, itemId: string, now: nat)
    requires forall i :: 0 <= i < |cs| ==> cs[i].id != NoticeId(kind, itemId, now)
    ensures DismissConflict(HandleConflict(cs, kind, itemId, now), NoticeId(kind, itemId, now)) == cs
  {
    var id := NoticeId(kind, itemId, now);
    var r := HandleConflict(cs, kind, itemId, now);
    assert r == cs + [r[|cs|]];
    FilterAppend(cs, [r[|cs|]], (c: ConflictNotice) => c.id != id);
    FilterKeepsAll(cs, (c: ConflictNotice) => c.id != id);
  }

  // ---------------------------------------------------------------------------
  // Loading, syncing and connectivity

  /** The parsed local cache: absent, unreadable (a parse error, only logged), or present with
      each table possibly missing. */
  datatype CacheRead =
    | NoCache
    | Unreadable
    | Cached(boards: Option<seq<Record>>, lists: Option<seq<Record>>, tasks: Option<seq<Record>>)

  /** `data.x || []`. */
  function OrEmpty(o: Option<seq<Record>>): seq<Record> {
    if o.Some? then o.value else []
  }

  /** `loadFromCache`: only a readable cache changes anything; missing tables read as empty. */
  function LoadFromCache(s: SyncState, userId: Option<string>, cache: CacheRead): (r: SyncState)
    ensures !Truthy(userId) || !cache.Cached? ==> r == s
    ensures Truthy(userId) && cache.Cached? ==>
      && r.boards == OrEmpty(cache.boards) && r.lists == OrEmpty(cache.lists)
      && r.tasks == OrEmpty(cache.tasks) && !r.loading
    ensures r.syncing == s.syncing && r.offline == s.offline && r.lastSync == s.lastSync
  {
    if !Truthy(userId) then s
    else match cache
      case Cached(b, l, t) => s.(boards := OrEmpty(b), lists := OrEmpty(l), tasks := OrEmpty(t), loading := false)
      case _ => s
  }

  /** The three table reads: all rows (each possibly `null`), or any one of them failed. */
  datatype Fetch = Fetched(boards: Option<seq<Record>>, lists: Option<seq<Record>>, tasks: Option<seq<Record>>)
                 | FetchFailed

  datatype SyncRun = SyncRun(state: SyncState, fetched: bool)

  /** `syncFromServer`: a guest or missing user only reads the cache; otherwise the tables are
      fetched, and success replaces them and stamps `lastSync` while failure falls back to the
      cache and keeps `lastSync`. Both clear `loading` and `syncing`. */
  function SyncFromServer(s: SyncState, actor: Actor, fetch: Fetch, cache: CacheRead, now: int): (r: SyncRun)
    ensures !Remote(actor) ==> r == SyncRun(LoadFromCache(s, actor.userId, cache), false)
    ensures Remote(actor) ==> r.fetched && !r.state.syncing && !r.state.loading
    ensures r.state.offline == s.offline
    ensures Remote(actor) && fetch.Fetched? ==>
      && r.state.lastSync == Some(now) && r.state.boards == OrEmpty(fetch.boards)
      && r.state.lists == OrEmpty(fetch.lists) && r.state.tasks == OrEmpty(fetch.tasks)
    ensures Remote(actor) && fetch.FetchFailed? ==> r.state.lastSync == s.lastSync
    ensures Remote(actor) && fetch.FetchFailed? && !cache.Cached? ==>
      r.state.boards == s.boards && r.state.lists == s.lists && r.state.tasks == s.tasks
    ensures Remote(actor) && fetch.FetchFailed? && cache.Cached? ==>
      && r.state.boards == OrEmpty(cache.boards) && r.state.lists == OrEmpty(cache.lists)
      && r.state.tasks == OrEmpty(cache.tasks)
  {
    if !Remote(actor) then SyncRun(LoadFromCache(s, actor.userId, cache), false)
    else
      var busy := s.(syncing := true);
      match fetch
      case Fetched(b, l, t) =>
        SyncRun(busy.(boards := OrEmpty(b), lists := OrEmpty(l), tasks := OrEmpty(t),
                      loading := false, syncing := false, lastSync := Some(now)), true)
      case FetchFailed =>
        SyncRun(LoadFromCache(busy.(syncing := false, loading := false), actor.userId, cache), true)
  }

  /** A guest on first run (no cache yet) keeps `loading` as it was: nothing clears it. */
  lemma GuestWithoutCacheKeepsLoading(s: SyncState, actor: Actor, fetch: Fetch, now: int)
    requires actor.isGuest
    ensures SyncFromServer(s, actor, fetch, NoCache, now).state.loading == s.loading
    ensures !SyncFromServer(s, actor, fetch, NoCache, now).fetched
  {
  }

  /** The `online` event clears the flag and re-runs the fetch exactly when a user is signed in. */
  function GoOnline(s: SyncState, actor: Actor, fetch: Fetch, cache: CacheRead, now: int): (r: SyncRun)
    ensures !r.state.offline
    ensures r.fetched <==> Remote(actor)
  {
    SyncFromServer(s.(offline := false), actor, fetch, cache, now)
  }

  /** The `offline` event only raises the flag. */
  function GoOffline(s: SyncState): (r: SyncState)
    ensures r.offline
    ensures r.boards == s.boards && r.lists == s.lists && r.tasks == s.tasks
    ensures r.loading == s.loading && r.syncing == s.syncing && r.lastSync == s.lastSync
  {
    s.(offline := true)
  }
}
