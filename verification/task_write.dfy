/** The version-conditioned task write with its last-writer-wins fallback (`updateTask`).
    The three answers of the remote store (the conditional update, the re-read of the row
    and the unconditional update) are parameters. */
module TaskWrite {
  import opened Common
  import opened Records
  import Text

  /** An error of the remote store: its code and its optional details text. */
  datatype DbError = DbError(code: string, details: Option<string>)

  /** An update request: the fields sent, the id filter and, for the first write only, the
      version the stored row must still have. */
  datatype UpdateRequest = UpdateRequest(values: Record, id: Option<Value>, versionGuard: Option<Option<Value>>)

  /** The stored task and whether it came out of a merge. */
  datatype Written = Written(task: Record, merged: bool)

  /** The requests issued, in order, and what the call returns or throws. */
  datatype WriteRun = WriteRun(requests: seq<UpdateRequest>, result: Result<Written, DbError>)

  /** Only a `409` code or details mentioning `version` are read as a version conflict. */
  predicate IsVersionConflict(e: DbError) {
    e.code == "409" || (e.details.Some? && Text.Contains(e.details.value, "version"))
  }

  /** `{ id, ...values } = task`: every field but the id. */
  function WithoutId(task: Record): (values: Record)
    ensures values.Keys == task.Keys - {"id"}
    ensures forall k :: k in values ==> values[k] == task[k]
  {
    map k | k in task && k != "id" :: task[k]
  }

  /** `(remote?.version ?? 0)`: the stored version, or 0 when the re-read found nothing. */
  function RemoteVersion(remote: Option<Record>): int {
    if remote.Some? && "version" in remote.value && remote.value["version"].Num?
    then remote.value["version"].n else 0
  }

  /** `{ ...remote, ...values }` with `version` set one past the stored version: the local
      fields win, the stored row supplies only the fields the local record lacks. */
  function Merge(remote: Option<Record>, values: Record): (m: Record)
    ensures m.Keys == values.Keys + {"version"} + (if remote.Some? then remote.value.Keys else {})
    ensures forall k :: k in values && k != "version" ==> m[k] == values[k]
    ensures remote.Some? ==> forall k :: k in remote.value && k !in values && k != "version" ==>
      m[k] == remote.value[k]
    ensures m["version"] == Num(RemoteVersion(remote) + 1)
  {
    var base := if remote.Some? then remote.value else map[];
    Overlay(base, values)["version" := Num(RemoteVersion(remote) + 1)]
  }

  /** `updateTask`: a write conditioned on the id and the unchanged version; on a version
      conflict, a merge written back unconditionally; any other error is rethrown. */
  function UpdateTask(task: Record, first: Result<Record, DbError>, remote: Option<Record>,
                      second: Result<Record, DbError>): (r: WriteRun)
    ensures |r.requests| >= 1
    ensures r.requests[0] == UpdateRequest(WithoutId(task), Field(task, "id"), Some(Field(task, "version")))
    ensures first.Ok? ==> r == WriteRun([r.requests[0]], Ok(Written(first.value, false)))
    ensures first.Err? && !IsVersionConflict(first.error) ==> r == WriteRun([r.requests[0]], Err(first.error))
    ensures first.Err? && IsVersionConflict(first.error) ==>
      && |r.requests| == 2
      && r.requests[1] == UpdateRequest(Merge(remote, WithoutId(task)), Field(task, "id"), None)
      && r.result == (if second.Ok? then Ok(Written(second.value, true)) else Err(second.error))
  {
    var values := WithoutId(task);
    var conditional := UpdateRequest(values, Field(task, "id"), Some(Field(task, "version")));
    match first
    case Ok(row) => WriteRun([conditional], Ok(Written(row, false)))
    case Err(e) =>
      if !IsVersionConflict(e) then WriteRun([conditional], Err(e))
      else
        var unconditional := UpdateRequest(Merge(remote, values), Field(task, "id"), None);
        match second
        case Ok(row) => WriteRun([conditional, unconditional], Ok(Written(row, true)))
        case Err(e2) => WriteRun([conditional, unconditional], Err(e2))
  }

  /** The first write sends the task's own version: nothing is bumped before the store agrees. */
  lemma FirstWriteKeepsVersion(task: Record, first: Result<Record, DbError>, remote: Option<Record>,
                               second: Result<Record, DbError>)
    requires "version" in task
    ensures var req := UpdateTask(task, first, remote, second).requests[0];
      "version" in req.values && req.values["version"] == task["version"] && "id" !in req.values
  {
  }

  /** The merged version passes the stored one, so versions observed for a task never go back. */
  lemma MergeAdvancesVersion(remote: Record, values: Record)
    requires Versioned(remote)
    ensures var m := Merge(Some(remote), values);
      Versioned(m) && VersionOf(m) == VersionOf(remote) + 1
  {
  }

  /** Merging after a failed re-read starts the version over at 1. */
  lemma MergeWithoutRemote(values: Record)
    ensures Merge(None, values)["version"] == Num(1)
    ensures Merge(None, values).Keys == values.Keys + {"version"}
  {
  }

  /** Merging is stable: merging the same local fields onto an earlier merge result changes
      only the version, which moves one further. */
  lemma MergeTwice(remote: Option<Record>, values: Record)
    ensures var m1 := Merge(remote, values);
      var m2 := Merge(Some(m1), values);
      m2.Keys == m1.Keys && m2["version"] == Num(RemoteVersion(remote) + 2)
      && forall k :: k in m1 && k != "version" ==> m2[k] == m1[k]
  {
  }

  /** Example: local title `A2` at stale version 3 against a stored row with title
      `B`, description `d` and version 4 merges to title `A2`, description `d`, version 5. */
  lemma MergeExample(stored: Record, local: Record, second: Record)
    requires stored == map["id" := Str("t1"), "title" := Str("B"), "description" := Str("d"), "version" := Num(4)]
    requires local == map["id" := Str("t1"), "title" := Str("A2"), "version" := Num(3)]
    ensures var run := UpdateTask(local, Err(DbError("409", None)), Some(stored), Ok(second));
      && |run.requests| == 2
      && run.requests[1].values.Keys == {"id", "title", "description", "version"}
      && run.requests[1].values["title"] == Str("A2")
      && run.requests[1].values["description"] == Str("d")
      && run.requests[1].values["version"] == Num(5)
      && run.result == Ok(Written(second, true))
  {
    var values := WithoutId(local);
    assert values.Keys == {"title", "version"};
    assert "description" !in values;
    assert IsVersionConflict(DbError("409", None));
    assert RemoteVersion(Some(stored)) == 4;
    var m := Merge(Some(stored), values);
    assert m.Keys == {"id", "title", "description", "version"};
  }

  /** A details text that mentions the version routes the error to the merge path. */
  lemma DetailsMentioningVersionMerge(task: Record, remote: Option<Record>, second: Result<Record, DbError>)
    ensures |UpdateTask(task, Err(DbError("23514", Some("row version mismatch"))), remote, second).requests| == 2
  {
    assert Text.OccursAt("row version mismatch", "version", 4);
  }
}
