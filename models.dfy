/**
 * The task record and the in-memory task list of `models.py`: a `Task` object
 * whose completion is updated in place, its flat record form, and a
 * `TaskManager` owning an ordered list of tasks addressed by 1-based position.
 * Reading and writing the JSON files is not part of this model: records arrive
 * already decoded from JSON, and saving after each change is left out.
 */
module Models {
  import opened Wrappers
  import opened IsoTime

  /** What a task holds, without its object identity. */
  datatype TaskData = TaskData(title: string, description: string, completed: bool,
                               createdAt: Timestamp, completedAt: Option<Timestamp>)

  /** The task the constructor builds: pending, with no completion time. */
  function NewTask(title: string, description: string, now: Timestamp): TaskData {
    TaskData(title, description, false, now, None)
  }

  /** The completion flag and the completion time agree. */
  predicate InStep(v: TaskData) {
    v.completed <==> v.completedAt.Some?
  }

  predicate AllInStep(vs: seq<TaskData>) {
    forall i :: 0 <= i < |vs| ==> InStep(vs[i])
  }

  /** `mark_completed`: completed, stamped with the current time. */
  function MarkedCompleted(v: TaskData, now: Timestamp): (r: TaskData)
    ensures r.completed && r.completedAt == Some(now) && InStep(r)
    ensures r.title == v.title && r.description == v.description && r.createdAt == v.createdAt
  {
    v.(completed := true, completedAt := Some(now))
  }

  /** `mark_pending`: not completed, no completion time. */
  function MarkedPending(v: TaskData): (r: TaskData)
    ensures !r.completed && r.completedAt.None? && InStep(r)
    ensures r.title == v.title && r.description == v.description && r.createdAt == v.createdAt
  {
    v.(completed := false, completedAt := None)
  }

  // ---------------------------------------------------------------------------
  // The flat record of `to_dict` / `from_dict`
  // ---------------------------------------------------------------------------

  /**
   * A task record as a JSON object. `None` stands for a key that is absent or
   * holds null; values are of the types `to_dict` writes.
   */
  datatype Record = Record(title: Option<string>, description: Option<string>,
                           completed: Option<bool>,
                           createdAt: Option<string>, completedAt: Option<string>)

  /** Why `from_dict` raises: a missing title key, or a timestamp it cannot parse. */
  datatype DecodeError = MissingTitle | BadTimestamp(text: string)

  function EncodeTime(t: Option<Timestamp>): Option<string> {
    match t
    case None => None
    case Some(x) => Some(IsoFormat(x))
  }

  /** A timestamp field `from_dict` skips: absent, null or empty. */
  predicate TimeAbsent(field: Option<string>) {
    field.None? || field.value == ""
  }

  /** A timestamp field that reads as `t`: absent for None, otherwise the text `fromisoformat` parses to it. */
  predicate DecodedAs(field: Option<string>, t: Option<Timestamp>) {
    if t.None? then TimeAbsent(field) else !TimeAbsent(field) && FromIsoFormat(field.value) == t
  }

  /** A timestamp field is read only when it is present and non-empty. */
  predicate TimeReadable(field: Option<string>) {
    field.None? || field.value == "" || FromIsoFormat(field.value).Some?
  }

  function DecodeTime(field: Option<string>): (r: Result<Option<Timestamp>, DecodeError>)
    ensures r.Ok? <==> TimeReadable(field)
    ensures r.Ok? ==> (r.value.None? <==> field.None? || field.value == "")
    ensures r.Ok? && r.value.Some? ==> FromIsoFormat(field.value) == r.value
    ensures r.Err? ==> r.error == BadTimestamp(field.value)
  {
    if field.None? || field.value == "" then Ok(None)
    else match FromIsoFormat(field.value)
      case None => Err(BadTimestamp(field.value))
      case Some(t) => Ok(Some(t))
  }

  /** A timestamp written by `to_dict` is one `from_dict` can read. */
  lemma EncodeTimeReadable(t: Option<Timestamp>)
    ensures TimeReadable(EncodeTime(t))
  {
    if t.Some? {
      IsoRoundTrip(t.value);
    }
  }

  /**
   * `to_dict`: every key is written, and both timestamps in a form `from_dict`
   * reads back.
   */
  function ToRecord(v: TaskData): (r: Record)
    ensures r.title.Some? && r.description.Some? && r.completed.Some? && r.createdAt.Some?
    ensures TimeReadable(r.createdAt) && TimeReadable(r.completedAt)
    ensures r.completedAt.Some? <==> v.completedAt.Some?
  {
    EncodeTimeReadable(Some(v.createdAt));
    EncodeTimeReadable(v.completedAt);
    Record(Some(v.title), Some(v.description), Some(v.completed),
           EncodeTime(Some(v.createdAt)), EncodeTime(v.completedAt))
  }

  /**
   * `from_dict`: the timestamps are parsed first, then the title is looked up;
   * a missing creation time becomes `now`, a missing description "" and a
   * missing completion flag false.
   */
  function FromRecord(data: Record, now: Timestamp): (r: Result<TaskData, DecodeError>)
    ensures r.Err? <==> !TimeReadable(data.createdAt) || !TimeReadable(data.completedAt) || data.title.None?
    ensures r.Ok? ==> r.value.title == data.title.value && r.value.completed == data.completed.GetOr(false)
    ensures r.Ok? ==> r.value.description == data.description.GetOr("")
    ensures r.Ok? ==> DecodedAs(data.createdAt, Some(r.value.createdAt)) ||
                      (TimeAbsent(data.createdAt) && r.value.createdAt == now)
    ensures r.Ok? ==> DecodedAs(data.completedAt, r.value.completedAt)
    ensures r.Err? && !TimeReadable(data.createdAt) ==> r.error == BadTimestamp(data.createdAt.value)
    ensures r.Err? && TimeReadable(data.createdAt) && !TimeReadable(data.completedAt) ==>
              r.error == BadTimestamp(data.completedAt.value)
    ensures r.Err? && TimeReadable(data.createdAt) && TimeReadable(data.completedAt) ==> r.error == MissingTitle
  {
    match DecodeTime(data.createdAt)
    case Err(e) => Err(e)
    case Ok(created) =>
      match DecodeTime(data.completedAt)
      case Err(e) => Err(e)
      case Ok(completedAt) =>
        if data.title.None? then Err(MissingTitle)
        else Ok(TaskData(data.title.value, data.description.GetOr(""), data.completed.GetOr(false),
                         created.GetOr(now), completedAt))
  }

  /** `from_dict(to_dict(t))` gives back every field of `t`, whatever the current time. */
  lemma RecordRoundTrip(v: TaskData, now: Timestamp)
    ensures FromRecord(ToRecord(v), now) == Ok(v)
  {
    IsoRoundTrip(v.createdAt);
    if v.completedAt.Some? {
      IsoRoundTrip(v.completedAt.value);
    }
  }

  /**
   * `from_dict` sets the completion flag independently of the completion time, so
   * a record can yield a pending task that has one.
   */
  lemma PendingWithCompletionTime(title: string, t: Timestamp, now: Timestamp)
    ensures FromRecord(Record(Some(title), None, Some(false), None, Some(IsoFormat(t))), now)
            == Ok(TaskData(title, "", false, now, Some(t)))
    ensures !InStep(TaskData(title, "", false, now, Some(t)))
  {
    IsoRoundTrip(t);
  }

  /**
   * `[Task.from_dict(d) for d in records]`: every record decoded in order, or
   * the error of the first record that fails.
   */
  function DecodeAll(records: seq<Record>, now: Timestamp): (r: Result<seq<TaskData>, DecodeError>)
    ensures r.Ok? ==> |r.value| == |records|
    ensures r.Ok? <==> forall i :: 0 <= i < |records| ==> FromRecord(records[i], now).Ok?
    ensures r.Ok? ==> forall i :: 0 <= i < |records| ==> FromRecord(records[i], now) == Ok(r.value[i])
  {
    if records == [] then Ok([])
    else
      var init := records[..|records| - 1];
      assert forall i :: 0 <= i < |init| ==> init[i] == records[i];
      match DecodeAll(init, now)
      case Err(e) => Err(e)
      case Ok(vs) =>
        match FromRecord(records[|records| - 1], now)
        case Err(e) => Err(e)
        case Ok(v) => Ok(vs + [v])
  }

  /** When the batch fails, its error is the one of the first record that does not decode. */
  lemma {:induction false} DecodeAllFirstError(records: seq<Record>, now: Timestamp)
    requires DecodeAll(records, now).Err?
    ensures exists i :: 0 <= i < |records| && FromRecord(records[i], now) == Err(DecodeAll(records, now).error) &&
                        forall j :: 0 <= j < i ==> FromRecord(records[j], now).Ok?
  {
    var init := records[..|records| - 1];
    assert forall i :: 0 <= i < |init| ==> init[i] == records[i];
    if DecodeAll(init, now).Err? {
      DecodeAllFirstError(init, now);
    } else {
      assert FromRecord(records[|records| - 1], now) == Err(DecodeAll(records, now).error);
    }
  }

  // ---------------------------------------------------------------------------
  // The list operations of `TaskManager`, on values
  // ---------------------------------------------------------------------------

  /** The positions `complete_task` and `delete_task` accept. */
  predicate IsPosition(n: int, vs: seq<TaskData>) {
    1 <= n <= |vs|
  }

  /** `complete_task(n)`: only the n-th task changes, and only if n is a position. */
  function WithCompleted(vs: seq<TaskData>, n: int, now: Timestamp): (r: seq<TaskData>)
    ensures |r| == |vs|
    ensures IsPosition(n, vs) ==> r[n - 1] == MarkedCompleted(vs[n - 1], now)
    ensures forall i :: 0 <= i < |vs| && i != n - 1 ==> r[i] == vs[i]
    ensures AllInStep(vs) ==> AllInStep(r)
  {
    if IsPosition(n, vs) then vs[n - 1 := MarkedCompleted(vs[n - 1], now)] else vs
  }

  /** `delete_task(n)`: the n-th task removed and the others shifted down, if n is a position. */
  function WithoutTask(vs: seq<TaskData>, n: int): (r: seq<TaskData>)
    ensures !IsPosition(n, vs) ==> r == vs
    ensures IsPosition(n, vs) ==> |r| == |vs| - 1
    ensures IsPosition(n, vs) ==> forall i :: 0 <= i < n - 1 ==> r[i] == vs[i]
    ensures IsPosition(n, vs) ==> forall i :: n - 1 <= i < |r| ==> r[i] == vs[i + 1]
    ensures IsPosition(n, vs) ==> multiset(r) + multiset{vs[n - 1]} == multiset(vs)
    ensures AllInStep(vs) ==> AllInStep(r)
  {
    if IsPosition(n, vs) then
      assert vs == vs[..n - 1] + [vs[n - 1]] + vs[n..];
      vs[..n - 1] + vs[n..]
    else vs
  }

  /** What `import_tasks` leaves: the old tasks, then every decoded record, or no change. */
  function AfterImport(vs: seq<TaskData>, file: Option<seq<Record>>, now: Timestamp): (r: seq<TaskData>)
    ensures file.None? ==> r == vs
    ensures file.Some? && DecodeAll(file.value, now).Err? ==> r == vs
    ensures file.Some? && DecodeAll(file.value, now).Ok? ==>
              |r| == |vs| + |file.value| && r[..|vs|] == vs &&
              forall i :: 0 <= i < |file.value| ==> FromRecord(file.value[i], now) == Ok(r[|vs| + i])
  {
    match file
    case None => vs
    case Some(records) =>
      match DecodeAll(records, now)
      case Err(_) => vs
      case Ok(imported) => vs + imported
  }

  // ---------------------------------------------------------------------------
  // Counting completed tasks
  // ---------------------------------------------------------------------------

  /** `sum(1 for task in tasks if task.completed)`. */
  function CountCompleted(vs: seq<TaskData>): (c: nat)
    ensures c <= |vs|
  {
    if vs == [] then 0
    else CountCompleted(vs[..|vs| - 1]) + (if vs[|vs| - 1].completed then 1 else 0)
  }

  /** The positions of the completed tasks: the independent definition of the count. */
  ghost function CompletedPositions(vs: seq<TaskData>): set<int> {
    set i | 0 <= i < |vs| && vs[i].completed
  }

  lemma {:induction false} CountIsCompletedPositions(vs: seq<TaskData>)
    ensures CountCompleted(vs) == |CompletedPositions(vs)|
  {
    if vs != [] {
      var init := vs[..|vs| - 1];
      CountIsCompletedPositions(init);
      var last := |vs| - 1;
      assert CompletedPositions(vs) ==
             CompletedPositions(init) + (if vs[last].completed then {last} else {});
    }
  }

  lemma {:induction false} CountConcat(a: seq<TaskData>, b: seq<TaskData>)
    ensures CountCompleted(a + b) == CountCompleted(a) + CountCompleted(b)
  {
    if b != [] {
      CountConcat(a, b[..|b| - 1]);
      assert (a + b)[..|a + b| - 1] == a + b[..|b| - 1];
      assert (a + b)[|a + b| - 1] == b[|b| - 1];
    } else {
      assert a + b == a;
    }
  }

  lemma CountSingle(v: TaskData)
    ensures CountCompleted([v]) == if v.completed then 1 else 0
  {
    assert [v][..0] == [];
  }

  /** Completing task n adds one to the count exactly when it was pending. */
  lemma CountWithCompleted(vs: seq<TaskData>, n: int, now: Timestamp)
    ensures CountCompleted(WithCompleted(vs, n, now)) ==
            CountCompleted(vs) + (if IsPosition(n, vs) && !vs[n - 1].completed then 1 else 0)
  {
    if IsPosition(n, vs) {
      var r := WithCompleted(vs, n, now);
      assert vs == vs[..n - 1] + [vs[n - 1]] + vs[n..];
      assert r == vs[..n - 1] + [r[n - 1]] + vs[n..];
      CountConcat(vs[..n - 1] + [vs[n - 1]], vs[n..]);
      CountConcat(vs[..n - 1], [vs[n - 1]]);
      CountConcat(vs[..n - 1] + [r[n - 1]], vs[n..]);
      CountConcat(vs[..n - 1], [r[n - 1]]);
      CountSingle(vs[n - 1]);
      CountSingle(r[n - 1]);
    }
  }

  /** Deleting task n takes one from the count exactly when it was completed. */
  lemma CountWithoutTask(vs: seq<TaskData>, n: int)
    ensures CountCompleted(WithoutTask(vs, n)) ==
            CountCompleted(vs) - (if IsPosition(n, vs) && vs[n - 1].completed then 1 else 0)
  {
    if IsPosition(n, vs) {
      assert vs == vs[..n - 1] + [vs[n - 1]] + vs[n..];
      CountConcat(vs[..n - 1] + [vs[n - 1]], vs[n..]);
      CountConcat(vs[..n - 1], [vs[n - 1]]);
      CountConcat(vs[..n - 1], vs[n..]);
      CountSingle(vs[n - 1]);
    }
  }

  // ---------------------------------------------------------------------------
  // Task objects and the task manager
  // ---------------------------------------------------------------------------

  /** `Task`: its fields change in place when it is completed or reopened. */
  class Task {
    var title: string
    var description: string
    var completed: bool
    var createdAt: Timestamp
    var completedAt: Option<Timestamp>

    function View(): TaskData
      reads this
    {
      TaskData(title, description, completed, createdAt, completedAt)
    }

    /** `Task(title, description, created_at, completed_at)`; `now` is `datetime.now()`. */
    constructor (now: Timestamp, title: string, description: string := "",
                 createdAt: Option<Timestamp> := None, completedAt: Option<Timestamp> := None)
      ensures View() == TaskData(title, description, false, createdAt.GetOr(now), completedAt)
    {
      this.title := title;
      this.description := description;
      this.completed := false;
      this.createdAt := createdAt.GetOr(now);
      this.completedAt := completedAt;
    }

    /** `mark_completed()`. */
    method MarkCompleted(now: Timestamp)
      modifies this
      ensures View() == MarkedCompleted(old(View()), now)
    {
      completed := true;
      completedAt := Some(now);
    }

    /** `mark_pending()`. */
    method MarkPending()
      modifies this
      ensures View() == MarkedPending(old(View()))
    {
      completed := false;
      completedAt := None;
    }

    /** `Task.from_dict(data)`: a new task object, or the error `from_dict` raises. */
    static method FromDict(data: Record, now: Timestamp) returns (r: Result<Task, DecodeError>)
      ensures r.Ok? <==> FromRecord(data, now).Ok?
      ensures r.Ok? ==> fresh(r.value) && r.value.View() == FromRecord(data, now).value
      ensures r.Err? ==> r.error == FromRecord(data, now).error
    {
      var created := DecodeTime(data.createdAt);
      if created.Err? {
        return Err(created.error);
      }
      var completedAt := DecodeTime(data.completedAt);
      if completedAt.Err? {
        return Err(completedAt.error);
      }
      if data.title.None? {
        return Err(MissingTitle);
      }
      var task := new Task(now, data.title.value, data.description.GetOr(""), created.value,
                           completedAt.value);
      task.completed := data.completed.GetOr(false);
      return Ok(task);
    }
  }

  /** What `import_tasks` reports. */
  datatype ImportOutcome = FileNotFound | ImportFailed(error: DecodeError) | Imported(count: nat)

  /** `TaskManager`: an ordered list of distinct task objects. */
  class TaskManager {
    var tasks: seq<Task>

    ghost predicate Valid()
      reads this
    {
      forall i, j :: 0 <= i < j < |tasks| ==> tasks[i] != tasks[j]
    }

    /** The task objects the list holds. */
    ghost function Objects(): set<Task>
      reads this
    {
      set t | t in tasks
    }

    /** The tasks' values, in list order. */
    function Contents(): (vs: seq<TaskData>)
      reads this, tasks
      ensures |vs| == |tasks|
      ensures forall i :: 0 <= i < |tasks| ==> vs[i] == tasks[i].View()
    {
      seq(|tasks|, i reads this, tasks requires 0 <= i < |tasks| => tasks[i].View())
    }

    /** An empty manager: loading the data file is not part of this model. */
    constructor ()
      ensures Valid() && Contents() == []
    {
      tasks := [];
    }

    /** `add_task(title, description)`: a new pending task appended, the others untouched. */
    method AddTask(title: string, description: string, now: Timestamp)
      requires Valid()
      modifies this
      ensures fresh(Objects() - old(Objects()))
      ensures Valid()
      ensures Contents() == old(Contents()) + [NewTask(title, description, now)]
    {
      var task := new Task(now, title, description);
      tasks := tasks + [task];
    }

    /** `complete_task(n)`; `ok` tells which message is printed. */
    method CompleteTask(n: int, now: Timestamp) returns (ok: bool)
      requires Valid()
      modifies tasks
      ensures Valid() && tasks == old(tasks)
      ensures ok == IsPosition(n, old(Contents()))
      ensures Contents() == WithCompleted(old(Contents()), n, now)
    {
      ok := 1 <= n <= |tasks|;
      if ok {
        tasks[n - 1].MarkCompleted(now);
      }
    }

    /** `delete_task(n)`; `deleted` is the task removed, whose title is printed. */
    method DeleteTask(n: int) returns (deleted: Option<TaskData>)
      requires Valid()
      modifies this
      ensures fresh(Objects() - old(Objects()))
      ensures Valid()
      ensures deleted == if IsPosition(n, old(Contents())) then Some(old(Contents())[n - 1]) else None
      ensures Contents() == WithoutTask(old(Contents()), n)
    {
      if 1 <= n <= |tasks| {
        deleted := Some(tasks[n - 1].View());
        tasks := tasks[..n - 1] + tasks[n..];
      } else {
        deleted := None;
      }
    }

    /** `get_task_count()`: (total, completed, pending). */
    function GetTaskCount(): (r: (nat, nat, nat))
      reads this, tasks
      ensures r.0 == |tasks| && r.1 == |CompletedPositions(Contents())| && r.2 == r.0 - r.1
    {
      var total := |tasks|;
      var completed := CountCompleted(Contents());
      CountIsCompletedPositions(Contents());
      (total, completed, total - completed)
    }

    /** `clear_all_tasks()`. */
    method ClearAllTasks()
      modifies this
      ensures fresh(Objects() - old(Objects()))
      ensures Valid() && Contents() == []
    {
      tasks := [];
    }

    /**
     * `import_tasks(filename)` once the file is read: `file` is None when it does
     * not exist. Every record is decoded before any task is added, so a record
     * `from_dict` rejects leaves the list as it was.
     */
    method ImportTasks(file: Option<seq<Record>>, now: Timestamp) returns (outcome: ImportOutcome)
      requires Valid()
      modifies this
      ensures fresh(Objects() - old(Objects()))
      ensures Valid()
      ensures Contents() == AfterImport(old(Contents()), file, now)
      ensures outcome == match file
        case None => FileNotFound
        case Some(records) =>
          match DecodeAll(records, now)
          case Err(e) => ImportFailed(e)
          case Ok(_) => Imported(|records|)
    {
      if file.None? {
        return FileNotFound;
      }
      var made := FromDicts(file.value, now);
      if made.Err? {
        return ImportFailed(made.error);
      }
      Extend(made.value);
      return Imported(|file.value|);
    }

    /** `self.tasks.extend(more)` with task objects the list does not hold yet. */
    method Extend(more: seq<Task>)
      requires Valid()
      requires forall k, l :: 0 <= k < l < |more| ==> more[k] != more[l]
      requires forall k :: 0 <= k < |more| ==> more[k] !in tasks
      modifies this
      ensures Valid() && tasks == old(tasks) + more
      ensures Objects() == old(Objects()) + set t | t in more
    {
      tasks := tasks + more;
    }
  }

  /** `[Task.from_dict(d) for d in records]`: new, distinct task objects, or the first error. */
  method FromDicts(records: seq<Record>, now: Timestamp) returns (r: Result<seq<Task>, DecodeError>)
    ensures r.Err? <==> DecodeAll(records, now).Err?
    ensures r.Err? ==> r.error == DecodeAll(records, now).error
    ensures r.Ok? ==> |r.value| == |records| &&
                      (forall k :: 0 <= k < |records| ==> fresh(r.value[k]) &&
                                                          r.value[k].View() == DecodeAll(records, now).value[k]) &&
                      (forall k, l :: 0 <= k < l < |records| ==> r.value[k] != r.value[l])
  {
    var made: seq<Task> := [];
    ghost var values: seq<TaskData> := [];
    var i := 0;
    assert records[..0] == [];
    while i < |records|
      invariant 0 <= i <= |records| && |made| == |values| == i
      invariant DecodeAll(records[..i], now) == Ok(values)
      invariant forall k :: 0 <= k < i ==> fresh(made[k]) && made[k].View() == values[k]
      invariant forall k, l :: 0 <= k < l < i ==> made[k] != made[l]
    {
      var task := Task.FromDict(records[i], now);
      if task.Err? {
        DecodeAllStopsAt(records, i, values, now);
        return Err(task.error);
      }
      DecodeAllNext(records, i, values, task.value.View(), now);
      made := made + [task.value];
      values := values + [task.value.View()];
      i := i + 1;
    }
    assert records[..i] == records;
    return Ok(made);
  }

  /** Decoding one more record that decodes: the batch so far, then that record. */
  lemma DecodeAllNext(records: seq<Record>, i: nat, vs: seq<TaskData>, v: TaskData, now: Timestamp)
    requires i < |records| && DecodeAll(records[..i], now) == Ok(vs) && FromRecord(records[i], now) == Ok(v)
    ensures DecodeAll(records[..i + 1], now) == Ok(vs + [v])
  {
    assert records[..i + 1][..i] == records[..i];
  }

  /** Once record `i` fails after a batch that decodes, the whole batch fails with its error. */
  lemma DecodeAllStopsAt(records: seq<Record>, i: nat, vs: seq<TaskData>, now: Timestamp)
    requires i < |records| && DecodeAll(records[..i], now) == Ok(vs) && FromRecord(records[i], now).Err?
    ensures DecodeAll(records, now) == Err(FromRecord(records[i], now).error)
  {
    assert records[..i + 1][..i] == records[..i];
    DecodeAllPrefixError(records, i + 1, now);
  }

  /** A record that fails to decode makes the whole batch fail with the first error. */
  lemma {:induction false} DecodeAllPrefixError(records: seq<Record>, i: nat, now: Timestamp)
    requires i <= |records| && DecodeAll(records[..i], now).Err?
    ensures DecodeAll(records, now) == DecodeAll(records[..i], now)
    decreases |records| - i
  {
    if i < |records| {
      var init := records[..|records| - 1];
      assert init[..i] == records[..i];
      DecodeAllPrefixError(init, i, now);
    } else {
      assert records[..i] == records;
    }
  }
}
