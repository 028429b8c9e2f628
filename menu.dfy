/**
 * The decisions `TaskManagerApp` in `app.py` makes on input that has already
 * been read, on values: a session is the task list, the `running` flag and the
 * watchdog. Each handler is a function from the session before to the session
 * after; `now` is the clock the watchdog reads and `stamp` the one tasks are
 * stamped with.
 */
module Menu {
  import opened Wrappers
  import opened Text
  import opened IsoTime
  import opened Models
  import opened Timeout

  datatype Session = Session(tasks: seq<TaskData>, running: bool, watchdog: Watchdog)

  /** The menu entries 1 to 9 and 0, and anything else. */
  datatype Action = Add | List | Complete | Delete | Statistics | History
                  | Export | Import | ClearAll | Exit | Invalid

  /** `get_user_choice()`: the number typed, or 0 when `int()` rejects the input. */
  function ChoiceOf(input: Option<int>): int {
    input.GetOr(0)
  }

  /** The branch of the dispatch in `run` that a choice takes. */
  function ActionOf(choice: int): (a: Action)
    ensures a == Exit <==> choice == 0
    ensures a == Invalid <==> choice < 0 || choice > 9
  {
    if choice == 1 then Add
    else if choice == 2 then List
    else if choice == 3 then Complete
    else if choice == 4 then Delete
    else if choice == 5 then Statistics
    else if choice == 6 then History
    else if choice == 7 then Export
    else if choice == 8 then Import
    else if choice == 9 then ClearAll
    else if choice == 0 then Exit
    else Invalid
  }

  /** The clearing confirmation: the answer, stripped and lower-cased, is "yes" or "y". */
  predicate Confirms(answer: string) {
    var a := Lower(Strip(answer));
    a == "yes" || a == "y"
  }

  /** The answers that confirm are "y" and "yes" in any mix of cases, with any surrounding whitespace. */
  lemma ConfirmsExactly(answer: string)
    ensures Confirms(answer) <==>
            var t := Strip(answer);
            (|t| == 1 && t[0] in "yY") || (|t| == 3 && t[0] in "yY" && t[1] in "eE" && t[2] in "sS")
  {
    var t := Strip(answer);
    var a := Lower(t);
    if |t| == 1 {
      assert a == "y" <==> a[0] == 'y';
    } else if |t| == 3 {
      assert a == "yes" <==> a[0] == 'y' && a[1] == 'e' && a[2] == 's';
    }
  }

  /** `reset_activity()` on the session's watchdog. */
  function Touch(s: Session, now: int): Session {
    s.(watchdog := Reset(s.watchdog, now))
  }

  /**
   * `handle_add_task()`: an empty stripped title adds nothing (and the
   * description is never asked for); otherwise one task with the stripped title
   * and description is appended.
   */
  function HandleAdd(s: Session, title: string, description: string, now: int, stamp: Timestamp): (r: Session)
    ensures r.running == s.running && r.watchdog == Reset(s.watchdog, now)
    ensures AllSpace(title) ==> r.tasks == s.tasks
    ensures !AllSpace(title) ==> r.tasks == s.tasks + [NewTask(Strip(title), Strip(description), stamp)]
  {
    var t := Strip(title);
    if t == [] then Touch(s, now)
    else
      var s1 := Touch(Touch(s, now), now);
      s1.(tasks := s1.tasks + [NewTask(t, Strip(description), stamp)])
  }

  /**
   * `handle_complete_task()`: with no tasks nothing is read and nothing changes;
   * otherwise the number typed, if `int()` accepts it, goes to `complete_task`.
   */
  function HandleComplete(s: Session, number: Option<int>, now: int, stamp: Timestamp): (r: Session)
    ensures s.tasks == [] ==> r == s
    ensures number.None? ==> r.tasks == s.tasks
    ensures number.Some? ==> r.tasks == WithCompleted(s.tasks, number.value, stamp)
    ensures s.tasks != [] ==> r.watchdog == Reset(s.watchdog, now)
    ensures r.running == s.running
  {
    if s.tasks == [] then s
    else
      var s1 := Touch(s, now);
      match number
      case None => s1
      case Some(n) => s1.(tasks := WithCompleted(s1.tasks, n, stamp))
  }

  /** `handle_delete_task()`, in the same shape as `handle_complete_task()`. */
  function HandleDelete(s: Session, number: Option<int>, now: int): (r: Session)
    ensures s.tasks == [] ==> r == s
    ensures number.None? ==> r.tasks == s.tasks
    ensures number.Some? ==> r.tasks == WithoutTask(s.tasks, number.value)
    ensures s.tasks != [] ==> r.watchdog == Reset(s.watchdog, now)
    ensures r.running == s.running
  {
    if s.tasks == [] then s
    else
      var s1 := Touch(s, now);
      match number
      case None => s1
      case Some(n) => s1.(tasks := WithoutTask(s1.tasks, n))
  }

  /**
   * `handle_import_tasks()`: an empty stripped file name imports nothing;
   * otherwise `file` (None when the file does not exist) goes to `import_tasks`.
   */
  function HandleImport(s: Session, filename: string, file: Option<seq<Record>>, now: int, stamp: Timestamp): (r: Session)
    ensures r.running == s.running && r.watchdog == Reset(s.watchdog, now)
    ensures AllSpace(filename) ==> r.tasks == s.tasks
    ensures !AllSpace(filename) ==> r.tasks == AfterImport(s.tasks, file, stamp)
  {
    var s1 := Touch(s, now);
    if Strip(filename) == [] then s1
    else s1.(tasks := AfterImport(s1.tasks, file, stamp))
  }

  /** `handle_clear_all_tasks()`: the list is emptied only on a confirming answer. */
  function HandleClearAll(s: Session, answer: string, now: int): (r: Session)
    ensures r.running == s.running && r.watchdog == Reset(s.watchdog, now)
    ensures r.tasks == if Confirms(answer) then [] else s.tasks
  {
    var s1 := Touch(s, now);
    if Confirms(answer) then s1.(tasks := []) else s1
  }

  /** Everything the user may be asked during one pass of the menu loop. */
  datatype Answers = Answers(choice: Option<int>, title: string, description: string,
                             taskNumber: Option<int>, filename: string,
                             importFile: Option<seq<Record>>, confirmation: string)

  /**
   * The `if`/`elif` chain of `run`. Listing, statistics and history only print;
   * exporting only writes a file; an invalid choice only prints a message.
   */
  function Dispatch(s: Session, choice: int, a: Answers, now: int, stamp: Timestamp): (r: Session)
    ensures r.running == (s.running && choice != 0)
    ensures ActionOf(choice) in {List, Statistics, History, Invalid} ==> r == s
    ensures ActionOf(choice) == Export ==> r == Touch(s, now)
    ensures ActionOf(choice) == Exit ==> r == s.(running := false)
  {
    match ActionOf(choice)
    case Add => HandleAdd(s, a.title, a.description, now, stamp)
    case Complete => HandleComplete(s, a.taskNumber, now, stamp)
    case Delete => HandleDelete(s, a.taskNumber, now)
    case Export => Touch(s, now)
    case Import => HandleImport(s, a.filename, a.importFile, now, stamp)
    case ClearAll => HandleClearAll(s, a.confirmation, now)
    case Exit => s.(running := false)
    case _ => s
  }

  /**
   * One pass of the body of `while self.running`: read the choice, dispatch,
   * and, if still running, wait for Enter.
   */
  function Step(s: Session, a: Answers, now: int, stamp: Timestamp): (r: Session)
    ensures r.running <==> s.running && ActionOf(ChoiceOf(a.choice)) != Exit
    ensures r.watchdog == Reset(s.watchdog, now)
  {
    var s1 := Dispatch(Touch(s, now), ChoiceOf(a.choice), a, now, stamp);
    if s1.running then Touch(s1, now) else s1
  }

  /** Input `int()` rejects is taken as choice 0: it ends the session and changes no task. */
  lemma NonNumericChoiceExits(s: Session, a: Answers, now: int, stamp: Timestamp)
    requires a.choice.None?
    ensures !Step(s, a, now, stamp).running && Step(s, a, now, stamp).tasks == s.tasks
  {
  }

  /**
   * A pass that does not import keeps every task's completion flag and
   * completion time in step; only an import can bring in a task where they differ.
   */
  lemma StepKeepsInStep(s: Session, a: Answers, now: int, stamp: Timestamp)
    requires AllInStep(s.tasks) && ActionOf(ChoiceOf(a.choice)) != Import
    ensures AllInStep(Step(s, a, now, stamp).tasks)
  {
  }

  /** A pass changes the number of completed tasks only through the handler its choice selects. */
  lemma StepCount(s: Session, a: Answers, now: int, stamp: Timestamp)
    requires ActionOf(ChoiceOf(a.choice)) in {Add, List, Statistics, History, Export, Exit, Invalid}
    ensures CountCompleted(Step(s, a, now, stamp).tasks) == CountCompleted(s.tasks)
    ensures |Step(s, a, now, stamp).tasks| == |s.tasks| + (if ActionOf(ChoiceOf(a.choice)) == Add && !AllSpace(a.title) then 1 else 0)
  {
    var action := ActionOf(ChoiceOf(a.choice));
    if action == Add && !AllSpace(a.title) {
      CountConcat(s.tasks, [NewTask(Strip(a.title), Strip(a.description), stamp)]);
      CountSingle(NewTask(Strip(a.title), Strip(a.description), stamp));
    }
  }

  /** One poll of the monitoring thread, clearing `running` when the timeout fires. */
  function PollSession(s: Session, at: int): (r: Session)
    ensures r.tasks == s.tasks && (r.running ==> s.running)
    ensures r.running <==> s.running && !(PhaseOf(s.watchdog) == Watching && Expired(s.watchdog, at))
    ensures r.watchdog == Poll(s.watchdog, at).0
  {
    var (w, fired) := Poll(s.watchdog, at);
    s.(running := s.running && !fired, watchdog := w)
  }

  /** The polls that happen while the menu waits for a choice. */
  function PollAll(s: Session, polls: seq<int>): Session {
    if polls == [] then s else PollSession(PollAll(s, polls[..|polls| - 1]), polls[|polls| - 1])
  }

  /** Polls never touch the tasks and never set `running` again. */
  lemma {:induction false} PollAllOnlyStops(s: Session, polls: seq<int>)
    ensures PollAll(s, polls).tasks == s.tasks
    ensures PollAll(s, polls).running ==> s.running
  {
    if polls != [] {
      PollAllOnlyStops(s, polls[..|polls| - 1]);
    }
  }

  /**
   * After a run of polls, `running` is still set exactly when it was set before
   * and none of the polls found the watchdog watching and the session expired.
   */
  lemma {:induction false} PollAllRunning(s: Session, polls: seq<int>)
    ensures PollAll(s, polls).running <==>
            s.running && forall i :: 0 <= i < |polls| ==> !Poll(PollAll(s, polls[..i]).watchdog, polls[i]).1
  {
    if polls != [] {
      var init := polls[..|polls| - 1];
      PollAllRunning(s, init);
      assert forall i :: 0 <= i < |init| ==> init[..i] == polls[..i] && init[i] == polls[i];
      assert polls[..|polls| - 1] == init;
    }
  }

  /**
   * One pass of the loop: the polls made while the choice is awaited, then the
   * pass itself. A timeout during the wait clears `running`, but the chosen
   * operation still runs: the flag is only looked at when the pass ends.
   */
  datatype Turn = Turn(polls: seq<int>, answers: Answers, now: int, stamp: Timestamp)

  function PlayTurn(s: Session, t: Turn): Session {
    Step(PollAll(s, t.polls), t.answers, t.now, t.stamp)
  }

  function PlayTurns(s: Session, turns: seq<Turn>): Session {
    if turns == [] then s else PlayTurn(PlayTurns(s, turns[..|turns| - 1]), turns[|turns| - 1])
  }

  lemma PlayTurnsPrefix(s: Session, turns: seq<Turn>, n: nat)
    requires n < |turns|
    ensures PlayTurns(s, turns[..n + 1]) == PlayTurn(PlayTurns(s, turns[..n]), turns[n])
  {
    assert turns[..n + 1][..n] == turns[..n];
  }

  /** The session was still running before each of the first `n` passes. */
  predicate RanThrough(s: Session, turns: seq<Turn>, n: nat)
    requires n <= |turns|
  {
    forall k :: 0 <= k < n ==> PlayTurns(s, turns[..k]).running
  }

  lemma RanThroughNext(s: Session, turns: seq<Turn>, n: nat)
    requires n < |turns| && RanThrough(s, turns, n) && PlayTurns(s, turns[..n]).running
    ensures RanThrough(s, turns, n + 1)
  {
  }

  /** `run()` starts the watchdog before its loop ... */
  function Begin(s: Session, start: int): Session {
    s.(watchdog := Start(s.watchdog, start))
  }

  /** ... and stops it in its `finally` block. */
  function Finish(s: Session): Session {
    s.(watchdog := Stop(s.watchdog))
  }

  /** Once `running` is cleared, no later pass sets it again. */
  lemma {:induction false} StoppedStaysStopped(s: Session, turns: seq<Turn>)
    requires !s.running
    ensures !PlayTurns(s, turns).running
  {
    if turns != [] {
      var before := PlayTurns(s, turns[..|turns| - 1]);
      StoppedStaysStopped(s, turns[..|turns| - 1]);
      PollAllOnlyStops(before, turns[|turns| - 1].polls);
    }
  }
}
