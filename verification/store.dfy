/** The minimal task store (`useStore`): boards, lists grouped by board id and tasks grouped
    by list id, filled from the remote tables and edited through the remote task operations.
    The grouping objects are modelled as association lists so that the insertion order
    `Object.keys` walks is explicit. That order is the one JavaScript uses for keys that are
    not array indices, such as the UUIDs the client creates as ids. */
module Store {
  import opened Common
  import opened Records
  import TaskWrite

  /** One property of a grouping object: its key and the rows stored under it. */
  datatype Bucket = Bucket(key: string, rows: seq<Record>)

  datatype StoreState = StoreState(boards: seq<Record>, lists: seq<Bucket>, tasks: seq<Bucket>, conflict: bool)

  /** The state before anything is loaded. */
  const Empty := StoreState([], [], [], false)

  /** `Object.keys(o)`, in insertion order (the order for keys that are not array indices). */
  function KeysOf(bs: seq<Bucket>): (ks: seq<string>)
    ensures |ks| == |bs|
    ensures forall i :: 0 <= i < |bs| ==> ks[i] == bs[i].key
    decreases |bs|
  {
    if |bs| == 0 then [] else [bs[0].key] + KeysOf(bs[1..])
  }

  /** Every key appears once, as in an object. */
  predicate DistinctKeys(bs: seq<Bucket>) {
    var ks := KeysOf(bs);
    forall i, j :: 0 <= i < j < |ks| ==> ks[i] != ks[j]
  }

  /** `o[k]`, `None` for `undefined`. */
  function Get(bs: seq<Bucket>, k: string): (r: Option<seq<Record>>)
    ensures r.Some? <==> k in KeysOf(bs)
    ensures r.Some? ==> exists i :: 0 <= i < |bs| && bs[i] == Bucket(k, r.value)
    decreases |bs|
  {
    if |bs| == 0 then None
    else if bs[0].key == k then Some(bs[0].rows)
    else
      Get(bs[1..], k)
  }

  /** `o[k] || []`. */
  function GetOrEmpty(bs: seq<Bucket>, k: string): seq<Record> {
    match Get(bs, k)
    case Some(rows) => rows
    case None => []
  }

  /** `{ ...o, [k]: rows }`: an existing key keeps its place, a new key goes last. */
  function Put(bs: seq<Bucket>, k: string, rows: seq<Record>): (r: seq<Bucket>)
    ensures |r| == |bs| || |r| == |bs| + 1
    decreases |bs|
  {
    if |bs| == 0 then [Bucket(k, rows)]
    else if bs[0].key == k then [Bucket(k, rows)] + bs[1..]
    else [bs[0]] + Put(bs[1..], k, rows)
  }

  /** After writing `k`, reading `k` gives the rows written and every other key reads as before. */
  lemma {:induction false} PutGet(bs: seq<Bucket>, k: string, rows: seq<Record>, k': string)
    ensures Get(Put(bs, k, rows), k') == if k' == k then Some(rows) else Get(bs, k')
    decreases |bs|
  {
    if |bs| > 0 && bs[0].key != k {
      PutGet(bs[1..], k, rows, k');
      assert ([bs[0]] + Put(bs[1..], k, rows))[1..] == Put(bs[1..], k, rows);
    } else if |bs| > 0 {
      assert ([Bucket(k, rows)] + bs[1..])[1..] == bs[1..];
    }
  }

  /** `PutGet` for every key at once. */
  lemma PutGetAll(bs: seq<Bucket>, k: string, rows: seq<Record>)
    ensures forall k' :: Get(Put(bs, k, rows), k') == if k' == k then Some(rows) else Get(bs, k')
  {
    forall k' ensures Get(Put(bs, k, rows), k') == if k' == k then Some(rows) else Get(bs, k') {
      PutGet(bs, k, rows, k');
    }
  }

  /** Writing keeps the key order: an existing key stays where it was, a new one is appended. */
  lemma {:induction false} PutKeys(bs: seq<Bucket>, k: string, rows: seq<Record>)
    ensures KeysOf(Put(bs, k, rows)) == if k in KeysOf(bs) then KeysOf(bs) else KeysOf(bs) + [k]
    decreases |bs|
  {
    if |bs| > 0 {
      if bs[0].key != k {
        PutKeys(bs[1..], k, rows);
        assert ([bs[0]] + Put(bs[1..], k, rows))[1..] == Put(bs[1..], k, rows);
      } else {
        assert ([Bucket(k, rows)] + bs[1..])[1..] == bs[1..];
      }
    }
  }

  /** Writing a property never creates a second entry for a key. */
  lemma PutKeepsDistinct(bs: seq<Bucket>, k: string, rows: seq<Record>)
    requires DistinctKeys(bs)
    ensures DistinctKeys(Put(bs, k, rows))
  {
    PutKeys(bs, k, rows);
  }

  /** The property key of a row's id, `row.id` used as an index. */
  function IdKey(row: Record): string {
    PropertyKey(Field(row, "id"))
  }

  /** The property keys of some rows' ids, in order. */
  function RowKeys(rows: seq<Record>): (ks: seq<string>)
    ensures |ks| == |rows|
    ensures forall j :: 0 <= j < |rows| ==> ks[j] == IdKey(rows[j])
    decreases |rows|
  {
    if |rows| == 0 then [] else [IdKey(rows[0])] + RowKeys(rows[1..])
  }

  /** Lists and tasks of one fetched board, or of one fetched list. */
  type Fetcher = string -> Result<seq<Record>, TaskWrite.DbError>

  /** Every bucket holds exactly what the fetch for its key returned. */
  ghost predicate Faithful(bs: seq<Bucket>, fetch: Fetcher) {
    forall m :: 0 <= m < |bs| ==> fetch(bs[m].key) == Ok(bs[m].rows)
  }

  /** Rewriting a key with the rows it already holds changes nothing; a new key is appended. */
  lemma PutGrows(bs: seq<Bucket>, k: string, rows: seq<Record>)
    requires Get(bs, k).None? || Get(bs, k) == Some(rows)
    ensures Put(bs, k, rows) == if Get(bs, k).None? then bs + [Bucket(k, rows)] else bs
    decreases |bs|
  {
    if |bs| > 0 && bs[0].key != k {
      PutGrows(bs[1..], k, rows);
      if Get(bs, k).None? {
        assert [bs[0]] + (bs[1..] + [Bucket(k, rows)]) == bs + [Bucket(k, rows)];
      } else {
        assert [bs[0]] + bs[1..] == bs;
      }
    }
  }

  /** Writing a key that is absent or already holds `rows` only appends, and afterwards the
      key holds `rows`. */
  lemma PutShape(bs: seq<Bucket>, k: string, rows: seq<Record>)
    requires Get(bs, k).None? || Get(bs, k) == Some(rows)
    ensures bs <= Put(bs, k, rows)
    ensures forall m :: |bs| <= m < |Put(bs, k, rows)| ==> Put(bs, k, rows)[m] == Bucket(k, rows)
    ensures exists m :: 0 <= m < |Put(bs, k, rows)| && Put(bs, k, rows)[m] == Bucket(k, rows)
    ensures k in KeysOf(Put(bs, k, rows))
  {
    PutGrows(bs, k, rows);
    PutGet(bs, k, rows, k);
    if Get(bs, k).None? {
      assert Put(bs, k, rows)[|bs|] == Bucket(k, rows);
    }
  }

  /** Writing a key whose fetch returned `rows` keeps the buckets faithful, and only appends. */
  lemma FaithfulPut(bs: seq<Bucket>, fetch: Fetcher, k: string, rows: seq<Record>)
    requires Faithful(bs, fetch) && fetch(k) == Ok(rows)
    ensures Faithful(Put(bs, k, rows), fetch)
    ensures bs <= Put(bs, k, rows)
    ensures forall m :: |bs| <= m < |Put(bs, k, rows)| ==> Put(bs, k, rows)[m] == Bucket(k, rows)
    ensures exists m :: 0 <= m < |Put(bs, k, rows)| && Put(bs, k, rows)[m] == Bucket(k, rows)
    ensures k in KeysOf(Put(bs, k, rows))
  {
    var g := Get(bs, k);
    if g.Some? {
      var i :| 0 <= i < |bs| && bs[i] == Bucket(k, g.value);
    }
    PutShape(bs, k, rows);
  }

  /** Keys of a prefix are keys of the whole. */
  lemma PrefixKeys(a: seq<Bucket>, b: seq<Bucket>)
    requires a <= b
    ensures forall k :: k in KeysOf(a) ==> k in KeysOf(b)
  {
    forall k | k in KeysOf(a)
      ensures k in KeysOf(b)
    {
      var t :| 0 <= t < |a| && KeysOf(a)[t] == k;
      assert KeysOf(b)[t] == k;
    }
  }

  /** The lists of the board with key `k` were fetched, and so were the tasks of each of them. */
  ghost predicate Fetched(k: string, listsOf: Fetcher, tasksOf: Fetcher) {
    listsOf(k).Ok? && forall k' :: k' in RowKeys(listsOf(k).value) ==> tasksOf(k').Ok?
  }

  /** Every fetch `load` makes for these boards succeeds. */
  ghost predicate AllFetchesSucceed(boards: seq<Record>, listsOf: Fetcher, tasksOf: Fetcher) {
    forall k :: k in RowKeys(boards) ==> Fetched(k, listsOf, tasksOf)
  }

  /** Some list bucket holds a row whose id has key `k`. */
  ghost predicate ListedIn(bs: seq<Bucket>, k: string) {
    exists m :: 0 <= m < |bs| && k in RowKeys(bs[m].rows)
  }

  /** What the inner loop of `load` keeps: `tasks` extends `tasks0` with buckets for exactly
      the list keys handled so far, each holding its fetched tasks. */
  ghost predicate TasksCover(tasks0: seq<Bucket>, tasks: seq<Bucket>, done: seq<string>, tasksOf: Fetcher) {
    && DistinctKeys(tasks) && Faithful(tasks, tasksOf) && tasks0 <= tasks
    && (forall k :: k in done ==> tasksOf(k).Ok? && k in KeysOf(tasks))
    && (forall m :: |tasks0| <= m < |tasks| ==> tasks[m].key in done)
  }

  lemma TasksStep(tasks0: seq<Bucket>, tasks: seq<Bucket>, done: seq<string>, tasksOf: Fetcher,
                  key: string, rows: seq<Record>)
    requires TasksCover(tasks0, tasks, done, tasksOf) && tasksOf(key) == Ok(rows)
    ensures TasksCover(tasks0, Put(tasks, key, rows), done + [key], tasksOf)
  {
    PutKeepsDistinct(tasks, key, rows);
    FaithfulPut(tasks, tasksOf, key, rows);
    PrefixKeys(tasks, Put(tasks, key, rows));
  }

  /** The inner loop of `load`: the tasks of each list in turn, stored under the list's id;
      the first failing fetch throws. */
  method LoadTasks(ls: seq<Record>, tasks0: seq<Bucket>, tasksOf: Fetcher)
    returns (r: Result<seq<Bucket>, TaskWrite.DbError>)
    requires DistinctKeys(tasks0) && Faithful(tasks0, tasksOf)
    ensures r.Ok? <==> forall k :: k in RowKeys(ls) ==> tasksOf(k).Ok?
    ensures r.Ok? ==> TasksCover(tasks0, r.value, RowKeys(ls), tasksOf)
  {
    var keys := RowKeys(ls);
    var tasks := tasks0;
    var j := 0;
    while j < |keys|
      invariant 0 <= j <= |keys|
      invariant TasksCover(tasks0, tasks, keys[..j], tasksOf)
    {
      var t := tasksOf(keys[j]);
      if t.Err? {
        return Err(t.error);
      }
      TasksStep(tasks0, tasks, keys[..j], tasksOf, keys[j], t.value);
      tasks := Put(tasks, keys[j], t.value);
      assert keys[..j + 1] == keys[..j] + [keys[j]];
      j := j + 1;
    }
    assert keys[..j] == keys;
    return Ok(tasks);
  }

  /** What the outer loop of `load` keeps, for the board keys handled so far. */
  ghost predicate LoadCover(done: seq<string>, lists: seq<Bucket>, tasks: seq<Bucket>, listsOf: Fetcher, tasksOf: Fetcher) {
    && (forall k :: k in done ==> Fetched(k, listsOf, tasksOf))
    && DistinctKeys(lists) && DistinctKeys(tasks)
    && Faithful(lists, listsOf) && Faithful(tasks, tasksOf)
    && (forall k :: k in done <==> k in KeysOf(lists))
    && (forall m :: 0 <= m < |lists| ==> forall k :: k in RowKeys(lists[m].rows) ==> k in KeysOf(tasks))
    && (forall m :: 0 <= m < |tasks| ==> ListedIn(lists, tasks[m].key))
  }

  /** The new board's lists have their tasks loaded, and the earlier lists keep theirs. */
  lemma LoadStepLists(lists: seq<Bucket>, tasks: seq<Bucket>, key: string, ls: seq<Record>, tasks': seq<Bucket>)
    requires forall m :: 0 <= m < |lists| ==> forall k :: k in RowKeys(lists[m].rows) ==> k in KeysOf(tasks)
    requires tasks <= tasks' && forall k :: k in RowKeys(ls) ==> k in KeysOf(tasks')
    requires lists <= Put(lists, key, ls)
    requires forall m :: |lists| <= m < |Put(lists, key, ls)| ==> Put(lists, key, ls)[m] == Bucket(key, ls)
    ensures var lists' := Put(lists, key, ls);
      forall m :: 0 <= m < |lists'| ==> forall k :: k in RowKeys(lists'[m].rows) ==> k in KeysOf(tasks')
  {
    var lists' := Put(lists, key, ls);
    PrefixKeys(tasks, tasks');
    forall m | 0 <= m < |lists'|
      ensures forall k :: k in RowKeys(lists'[m].rows) ==> k in KeysOf(tasks')
    {
      if m >= |lists| {
        assert lists'[m] == Bucket(key, ls);
      } else {
        assert lists'[m] == lists[m];
      }
    }
  }

  /** Every task bucket, old or new, belongs to some loaded list. */
  lemma LoadStepTasks(lists: seq<Bucket>, tasks: seq<Bucket>, key: string, ls: seq<Record>, tasks': seq<Bucket>, tasksOf: Fetcher)
    requires forall m :: 0 <= m < |tasks| ==> ListedIn(lists, tasks[m].key)
    requires TasksCover(tasks, tasks', RowKeys(ls), tasksOf)
    requires lists <= Put(lists, key, ls)
    requires exists m :: 0 <= m < |Put(lists, key, ls)| && Put(lists, key, ls)[m] == Bucket(key, ls)
    ensures var lists' := Put(lists, key, ls);
      forall m :: 0 <= m < |tasks'| ==> ListedIn(lists', tasks'[m].key)
  {
    var lists' := Put(lists, key, ls);
    var n :| 0 <= n < |lists'| && lists'[n] == Bucket(key, ls);
    forall m | 0 <= m < |tasks'|
      ensures ListedIn(lists', tasks'[m].key)
    {
      var k := tasks'[m].key;
      if m < |tasks| {
        assert tasks'[m] == tasks[m];
        var m0 :| 0 <= m0 < |lists| && k in RowKeys(lists[m0].rows);
        assert lists'[m0] == lists[m0];
      } else {
        assert k in RowKeys(lists'[n].rows);
      }
    }
  }

  lemma LoadStep(done: seq<string>, lists: seq<Bucket>, tasks: seq<Bucket>, listsOf: Fetcher, tasksOf: Fetcher,
                 key: string, ls: seq<Record>, tasks': seq<Bucket>)
    requires LoadCover(done, lists, tasks, listsOf, tasksOf)
    requires listsOf(key) == Ok(ls)
    requires TasksCover(tasks, tasks', RowKeys(ls), tasksOf)
    ensures LoadCover(done + [key], Put(lists, key, ls), tasks', listsOf, tasksOf)
  {
    PutKeepsDistinct(lists, key, ls);
    FaithfulPut(lists, listsOf, key, ls);
    PutKeys(lists, key, ls);
    LoadStepLists(lists, tasks, key, ls, tasks');
    LoadStepTasks(lists, tasks, key, ls, tasks', tasksOf);
  }

  /** The list and task buckets `load` builds. */
  datatype Buckets = Buckets(lists: seq<Bucket>, tasks: seq<Bucket>)

  /** The loop of `load` over the board keys: for each board its lists, and for each of those
      lists its tasks. The first failing fetch ends the loop with its error. */
  method LoadAll(boards: seq<Record>, listsOf: Fetcher, tasksOf: Fetcher)
    returns (r: Result<Buckets, TaskWrite.DbError>)
    ensures r.Ok? <==> AllFetchesSucceed(boards, listsOf, tasksOf)
    ensures r.Ok? ==> LoadCover(RowKeys(boards), r.value.lists, r.value.tasks, listsOf, tasksOf)
  {
    var keys := RowKeys(boards);
    var acc := Buckets([], []);
    ghost var done: seq<string> := [];
    var i := 0;
    CoverStart(listsOf, tasksOf);
    while i < |keys|
      invariant 0 <= i <= |keys| && done == keys[..i]
      invariant LoadCover(done, acc.lists, acc.tasks, listsOf, tasksOf)
    {
      var next := LoadBoard(done, acc, keys[i], listsOf, tasksOf);
      if next.Err? {
        FetchFailed(boards, listsOf, tasksOf, i);
        return Err(next.error);
      }
      acc := next.value;
      done := done + [keys[i]];
      i := i + 1;
    }
    assert done == keys;
    CoverFetched(boards, acc.lists, acc.tasks, listsOf, tasksOf);
    return Ok(acc);
  }

  /** One pass of the loop of `load`: the lists of the board with key `key`, then the tasks
      of each of those lists. */
  method LoadBoard(ghost done: seq<string>, acc: Buckets, key: string, listsOf: Fetcher, tasksOf: Fetcher)
    returns (r: Result<Buckets, TaskWrite.DbError>)
    requires LoadCover(done, acc.lists, acc.tasks, listsOf, tasksOf)
    ensures r.Ok? <==> Fetched(key, listsOf, tasksOf)
    ensures r.Ok? ==> LoadCover(done + [key], r.value.lists, r.value.tasks, listsOf, tasksOf)
  {
    var got := listsOf(key);
    if got.Err? {
      return Err(got.error);
    }
    CoverTasks(done, acc.lists, acc.tasks, listsOf, tasksOf);
    var loaded := LoadTasks(got.value, acc.tasks, tasksOf);
    if loaded.Err? {
      return Err(loaded.error);
    }
    LoadStep(done, acc.lists, acc.tasks, listsOf, tasksOf, key, got.value, loaded.value);
    return Ok(Buckets(Put(acc.lists, key, got.value), loaded.value));
  }

  /** Before the first board nothing is loaded, and nothing is missing. */
  lemma CoverStart(listsOf: Fetcher, tasksOf: Fetcher)
    ensures LoadCover([], [], [], listsOf, tasksOf)
  {
  }

  /** The task buckets built so far are a valid start for the next board's lists. */
  lemma CoverTasks(done: seq<string>, lists: seq<Bucket>, tasks: seq<Bucket>, listsOf: Fetcher, tasksOf: Fetcher)
    requires LoadCover(done, lists, tasks, listsOf, tasksOf)
    ensures DistinctKeys(tasks) && Faithful(tasks, tasksOf)
  {
  }

  /** A loop that covered every board made only successful fetches. */
  lemma CoverFetched(boards: seq<Record>, lists: seq<Bucket>, tasks: seq<Bucket>, listsOf: Fetcher, tasksOf: Fetcher)
    requires LoadCover(RowKeys(boards), lists, tasks, listsOf, tasksOf)
    ensures AllFetchesSucceed(boards, listsOf, tasksOf)
  {
  }

  /** One failing fetch for a board means not every fetch succeeds. */
  lemma FetchFailed(boards: seq<Record>, listsOf: Fetcher, tasksOf: Fetcher, i: int)
    requires 0 <= i < |RowKeys(boards)|
    requires !Fetched(RowKeys(boards)[i], listsOf, tasksOf)
    ensures !AllFetchesSucceed(boards, listsOf, tasksOf)
  {
  }

  /** `load`: boards in the order served; for each board its lists under the board's id;
      for each of those lists its tasks under the list's id. Any failing fetch throws before
      the store is written, so the store is replaced only by a complete snapshot (which is
      also what goes to the offline cache). The `set` merges into the store, so `conflict`
      keeps its value. */
  method Load(s: StoreState, fetched: Result<seq<Record>, TaskWrite.DbError>, listsOf: Fetcher, tasksOf: Fetcher)
    returns (r: Result<StoreState, TaskWrite.DbError>)
    ensures fetched.Err? ==> r == Err(fetched.error)
    ensures r.Ok? <==> fetched.Ok? && AllFetchesSucceed(fetched.value, listsOf, tasksOf)
    ensures r.Ok? ==> r.value.boards == fetched.value && r.value.conflict == s.conflict
    ensures r.Ok? ==> DistinctKeys(r.value.lists) && DistinctKeys(r.value.tasks)
    ensures r.Ok? ==> Faithful(r.value.lists, listsOf) && Faithful(r.value.tasks, tasksOf)
    ensures r.Ok? ==> forall k :: k in RowKeys(fetched.value) <==> k in KeysOf(r.value.lists)
    ensures r.Ok? ==> forall m :: 0 <= m < |r.value.lists| ==>
      forall k :: k in RowKeys(r.value.lists[m].rows) ==> k in KeysOf(r.value.tasks)
    ensures r.Ok? ==> forall m :: 0 <= m < |r.value.tasks| ==> ListedIn(r.value.lists, r.value.tasks[m].key)
  {
    if fetched.Err? {
      return Err(fetched.error);
    }
    var loaded := LoadAll(fetched.value, listsOf, tasksOf);
    if loaded.Err? {
      return Err(loaded.error);
    }
    return Ok(StoreState(fetched.value, loaded.value.lists, loaded.value.tasks, s.conflict));
  }

  /** The board whose list bucket holds a list with id `listId`. */
  predicate HoldsList(s: StoreState, board: Record, listId: string) {
    var bucket := Get(s.lists, IdKey(board));
    bucket.Some? && Any(bucket.value, (l: Record) => HasId(l, listId))
  }

  /** Board `i` is the first one whose lists contain `listId`. */
  predicate FirstHolderAt(s: StoreState, listId: string, i: int) {
    && 0 <= i < |s.boards| && HoldsList(s, s.boards[i], listId)
    && forall i' :: 0 <= i' < i ==> !HoldsList(s, s.boards[i'], listId)
  }

  /** `board?.id ?? ''` for a board that was found. */
  function IdOrEmpty(board: Record): Value {
    if "id" in board && board["id"] != Null then board["id"] else Str("")
  }

  /** The board id `addTask` records: that of the first board whose list bucket holds a list
      with this id, or the empty string when there is none or it has no id. */
  function BoardOfList(s: StoreState, listId: string): (v: Value)
    ensures (forall i :: 0 <= i < |s.boards| ==> !HoldsList(s, s.boards[i], listId)) ==> v == Str("")
    ensures forall i :: FirstHolderAt(s, listId, i) ==> v == IdOrEmpty(s.boards[i])
  {
    match FirstIndex(s.boards, (b: Record) => HoldsList(s, b, listId))
    case None => Str("")
    case Some(i) =>
      assert FirstHolderAt(s, listId, i);
      IdOrEmpty(s.boards[i])
  }

  /** The fields `addTask` sends to be inserted. */
  function NewTaskFields(s: StoreState, listId: string, title: string, id: string): (r: Record)
    ensures r.Keys == {"id", "list_id", "board_id", "title", "description", "position"}
    ensures HasId(r, id) && r["list_id"] == Str(listId) && r["title"] == Str(title)
    ensures r["position"] == Num(|GetOrEmpty(s.tasks, listId)| + 1)
    ensures r["board_id"] == BoardOfList(s, listId) && r["description"] == Str("")
  {
    var board := BoardOfList(s, listId);
    map["id" := Str(id), "list_id" := Str(listId), "board_id" := board,
        "title" := Str(title), "description" := Str(""),
        "position" := Num(|GetOrEmpty(s.tasks, listId)| + 1)]
  }

  /** The insert request and what the store becomes (or the error thrown). */
  datatype AddRun = AddRun(sent: Record, result: Result<StoreState, TaskWrite.DbError>)

  /** `addTask`: insert a task at the end of its list and append the stored row to the list's
      bucket; a failing insert throws and leaves the store as it was. */
  function AddTask(s: StoreState, listId: string, title: string, id: string,
                   created: Result<Record, TaskWrite.DbError>): (r: AddRun)
    ensures r.sent.Keys == {"id", "list_id", "board_id", "title", "description", "position"}
    ensures HasId(r.sent, id) && r.sent["list_id"] == Str(listId) && r.sent["title"] == Str(title)
    ensures r.sent["position"] == Num(|GetOrEmpty(s.tasks, listId)| + 1)
    ensures r.sent["board_id"] == BoardOfList(s, listId) && r.sent["description"] == Str("")
    ensures created.Err? ==> r.result == Err(created.error)
    ensures created.Ok? ==>
      && r.result.Ok?
      && Get(r.result.value.tasks, listId) == Some(GetOrEmpty(s.tasks, listId) + [created.value])
      && (forall k :: k != listId ==> Get(r.result.value.tasks, k) == Get(s.tasks, k))
      && r.result.value == s.(tasks := r.result.value.tasks)
  {
    var sent := NewTaskFields(s, listId, title, id);
    match created
    case Err(e) => AddRun(sent, Err(e))
    case Ok(row) =>
      var tasks := Put(s.tasks, listId, GetOrEmpty(s.tasks, listId) + [row]);
      PutGetAll(s.tasks, listId, GetOrEmpty(s.tasks, listId) + [row]);
      AddRun(sent, Ok(s.(tasks := tasks)))
  }

  /** Adding two tasks to one list in a row numbers them one after the other. */
  lemma AddTwicePositions(s: StoreState, listId: string, t1: string, t2: string, id1: string, id2: string,
                          row1: Record, created2: Result<Record, TaskWrite.DbError>)
    ensures var first := AddTask(s, listId, t1, id1, Ok(row1));
      var second := AddTask(first.result.value, listId, t2, id2, created2);
      first.sent["position"] == Num(|GetOrEmpty(s.tasks, listId)| + 1)
      && second.sent["position"] == Num(|GetOrEmpty(s.tasks, listId)| + 2)
  {
    var first := AddTask(s, listId, t1, id1, Ok(row1));
    assert GetOrEmpty(first.result.value.tasks, listId) == GetOrEmpty(s.tasks, listId) + [row1];
  }

  /** The request `saveTask` sends, the requests of the write, and the store afterwards. */
  datatype SaveRun = SaveRun(requests: seq<TaskWrite.UpdateRequest>, result: Result<StoreState, TaskWrite.DbError>)

  /** `saveTask`: write the task (merging on a version conflict), replace every row with its id
      in the bucket of its `list_id` by the stored row, and raise `conflict` exactly when the
      write had to merge. A thrown write leaves the store as it was. */
  function SaveTask(s: StoreState, task: Record, first: Result<Record, TaskWrite.DbError>,
                    remote: Option<Record>, second: Result<Record, TaskWrite.DbError>): (r: SaveRun)
    ensures r.requests == TaskWrite.UpdateTask(task, first, remote, second).requests
    ensures TaskWrite.UpdateTask(task, first, remote, second).result.Err? ==>
      r.result == Err(TaskWrite.UpdateTask(task, first, remote, second).result.error)
    ensures TaskWrite.UpdateTask(task, first, remote, second).result.Ok? ==>
      var w := TaskWrite.UpdateTask(task, first, remote, second).result.value;
      var key := PropertyKey(Field(task, "list_id"));
      var before := GetOrEmpty(s.tasks, key);
      && r.result.Ok?
      && r.result.value == s.(tasks := r.result.value.tasks, conflict := w.merged)
      && Get(r.result.value.tasks, key).Some?
      && |Get(r.result.value.tasks, key).value| == |before|
      && (forall j :: 0 <= j < |before| ==>
            Get(r.result.value.tasks, key).value[j] == if SameId(before[j], task) then w.task else before[j])
      && (forall k :: k != key ==> Get(r.result.value.tasks, k) == Get(s.tasks, k))
  {
    var run := TaskWrite.UpdateTask(task, first, remote, second);
    match run.result
    case Err(e) => SaveRun(run.requests, Err(e))
    case Ok(w) =>
      var key := PropertyKey(Field(task, "list_id"));
      var rows := ReplaceWhere(GetOrEmpty(s.tasks, key), (t: Record) => SameId(t, task), w.task);
      var tasks := Put(s.tasks, key, rows);
      PutGetAll(s.tasks, key, rows);
      SaveRun(run.requests, Ok(s.(tasks := tasks, conflict := w.merged)))
  }

  /** `conflict` is raised exactly when the first write hit a version conflict and the merged
      write went through. */
  lemma SaveTaskConflict(s: StoreState, task: Record, first: Result<Record, TaskWrite.DbError>,
                         remote: Option<Record>, second: Result<Record, TaskWrite.DbError>)
    requires SaveTask(s, task, first, remote, second).result.Ok?
    ensures SaveTask(s, task, first, remote, second).result.value.conflict <==>
      first.Err? && TaskWrite.IsVersionConflict(first.error) && second.Ok?
  {
  }

  /** The id of the task being removed appears in this list bucket. */
  predicate HoldsTask(s: StoreState, key: string, id: string) {
    Any(GetOrEmpty(s.tasks, key), (t: Record) => HasId(t, id))
  }

  /** The position, in key order, of the first list bucket holding a task with this id: the
      bucket the `Object.keys` loop of `removeTask` stops at. */
  function FirstHolder(s: StoreState, id: string): (i: Option<nat>)
    ensures i.Some? ==> i.value < |s.tasks| && HoldsTask(s, s.tasks[i.value].key, id)
    ensures i.Some? ==> forall i' :: 0 <= i' < i.value ==> !HoldsTask(s, s.tasks[i'].key, id)
    ensures i.None? <==> forall i' :: 0 <= i' < |s.tasks| ==> !HoldsTask(s, s.tasks[i'].key, id)
  {
    FirstIndex(s.tasks, (b: Bucket) => HoldsTask(s, b.key, id))
  }

  /** The test `removeTask` filters with: `t => t.id !== id`. */
  function NotId(id: string): Record -> bool {
    (t: Record) => !HasId(t, id)
  }

  /** The delete request (the id) and what the store becomes. */
  datatype RemoveRun = RemoveRun(deleted: Option<string>, result: Result<StoreState, TaskWrite.DbError>)

  /** `removeTask`: the first list bucket holding a task with this id loses every such task
      once the remote delete succeeds, keeping the others in order; no other bucket changes.
      Without such a bucket nothing is sent; a failing delete throws. */
  function RemoveTask(s: StoreState, id: string, deleteError: Option<TaskWrite.DbError>): (r: RemoveRun)
    ensures r.deleted.Some? <==> FirstHolder(s, id).Some?
    ensures r.deleted.Some? ==> r.deleted.value == id
    ensures r.deleted.None? ==> r.result == Ok(s)
    ensures r.deleted.Some? && deleteError.Some? ==> r.result == Err(deleteError.value)
    ensures r.deleted.Some? && deleteError.None? ==>
      var key := s.tasks[FirstHolder(s, id).value].key;
      && r.result.Ok?
      && r.result.value == s.(tasks := r.result.value.tasks)
      && Get(r.result.value.tasks, key).Some?
      && Get(r.result.value.tasks, key) == Some(Filter(GetOrEmpty(s.tasks, key), NotId(id)))
      && (forall t :: t in Get(r.result.value.tasks, key).value <==> t in GetOrEmpty(s.tasks, key) && !HasId(t, id))
      && (forall k :: k != key ==> Get(r.result.value.tasks, k) == Get(s.tasks, k))
  {
    match FirstHolder(s, id)
    case None => RemoveRun(None, Ok(s))
    case Some(i) =>
      if deleteError.Some? then RemoveRun(Some(id), Err(deleteError.value))
      else
        var key := s.tasks[i].key;
        var rows := Filter(GetOrEmpty(s.tasks, key), NotId(id));
        var tasks := Put(s.tasks, key, rows);
        forall k ensures Get(tasks, k) == if k == key then Some(rows) else Get(s.tasks, k) {
          PutGet(s.tasks, key, rows, k);
        }
        RemoveRun(Some(id), Ok(s.(tasks := tasks)))
  }
  /** Writing a key twice keeps only the second write. */
  lemma {:induction false} PutPut(bs: seq<Bucket>, k: string, x: seq<Record>, y: seq<Record>)
    ensures Put(Put(bs, k, x), k, y) == Put(bs, k, y)
    decreases |bs|
  {
    if |bs| > 0 && bs[0].key != k {
      PutPut(bs[1..], k, x, y);
      assert ([bs[0]] + Put(bs[1..], k, x))[1..] == Put(bs[1..], k, x);
    } else if |bs| > 0 {
      assert ([Bucket(k, x)] + bs[1..])[1..] == bs[1..];
    }
  }

  /** Appending a task with the id to one list makes that list the first holder of the id
      when no list held it before. */
  lemma AppendedIsFirstHolder(s: StoreState, listId: string, id: string, row: Record)
    requires HasId(row, id)
    requires forall m :: 0 <= m < |s.tasks| ==> !Any(s.tasks[m].rows, (t: Record) => HasId(t, id))
    ensures var added := s.(tasks := Put(s.tasks, listId, GetOrEmpty(s.tasks, listId) + [row]));
      FirstHolder(added, id).Some? && added.tasks[FirstHolder(added, id).value].key == listId
  {
    var rows := GetOrEmpty(s.tasks, listId);
    var added := s.(tasks := Put(s.tasks, listId, rows + [row]));
    PutGet(s.tasks, listId, rows + [row], listId);
    assert HoldsTask(added, listId, id) by {
      assert GetOrEmpty(added.tasks, listId)[|rows|] == row;
    }
    FaithfulPutKey(s.tasks, listId, rows + [row]);
    forall m | 0 <= m < |added.tasks| && added.tasks[m].key != listId
      ensures !HoldsTask(added, added.tasks[m].key, id)
    {
      var k := added.tasks[m].key;
      PutGet(s.tasks, listId, rows + [row], k);
      var g := Get(s.tasks, k);
      if g.Some? {
        var i :| 0 <= i < |s.tasks| && s.tasks[i] == Bucket(k, g.value);
        assert s.tasks[i].rows == g.value;
      }
    }
  }

  /** The key just written is among the keys. */
  lemma FaithfulPutKey(bs: seq<Bucket>, k: string, rows: seq<Record>)
    ensures exists m :: 0 <= m < |Put(bs, k, rows)| && Put(bs, k, rows)[m].key == k
  {
    PutKeys(bs, k, rows);
    PutGet(bs, k, rows, k);
    assert k in KeysOf(Put(bs, k, rows));
    var m :| 0 <= m < |KeysOf(Put(bs, k, rows))| && KeysOf(Put(bs, k, rows))[m] == k;
  }

  /** Filtering out a task just appended under a fresh id leaves the rows before it. */
  lemma FilterDropsAppended(rows: seq<Record>, id: string, row: Record)
    requires HasId(row, id)
    requires !Any(rows, (t: Record) => HasId(t, id))
    ensures Filter(rows + [row], NotId(id)) == rows
  {
    FilterAppend(rows, [row], NotId(id));
    FilterKeepsAll(rows, NotId(id));
    assert Filter([row], NotId(id)) == [];
  }

  /** Filtering out a task just appended under a fresh id restores the list's bucket. */
  lemma FilterAppended(bs: seq<Bucket>, listId: string, id: string, row: Record)
    requires HasId(row, id)
    requires Get(bs, listId).Some?
    requires forall m :: 0 <= m < |bs| ==> !Any(bs[m].rows, (t: Record) => HasId(t, id))
    ensures var added := Put(bs, listId, Get(bs, listId).value + [row]);
      Put(added, listId, Filter(GetOrEmpty(added, listId), NotId(id))) == bs
  {
    var rows := Get(bs, listId).value;
    var i0 :| 0 <= i0 < |bs| && bs[i0] == Bucket(listId, rows);
    assert bs[i0].rows == rows;
    PutGet(bs, listId, rows + [row], listId);
    FilterDropsAppended(rows, id, row);
    PutPut(bs, listId, rows + [row], rows);
    PutGrows(bs, listId, rows);
  }

  /** Removing a task just added under a fresh id to an existing list gives the store back. */
  lemma AddThenRemove(s: StoreState, listId: string, title: string, id: string, row: Record)
    requires HasId(row, id)
    requires Get(s.tasks, listId).Some?
    requires forall m :: 0 <= m < |s.tasks| ==> !Any(s.tasks[m].rows, (t: Record) => HasId(t, id))
    ensures var added := AddTask(s, listId, title, id, Ok(row)).result.value;
      RemoveTask(added, id, None).result == Ok(s)
  {
    var added := s.(tasks := Put(s.tasks, listId, GetOrEmpty(s.tasks, listId) + [row]));
    assert AddTask(s, listId, title, id, Ok(row)).result.value == added;
    AppendedIsFirstHolder(s, listId, id, row);
    FilterAppended(s.tasks, listId, id, row);
  }
}
