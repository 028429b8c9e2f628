/**
 * The objects of `app.py`: the `TimeoutManager` whose fields the session and
 * its monitoring thread update, and the `TaskManagerApp` whose `running` flag
 * and task manager change as the menu loop runs. Each method is proved against
 * the function of the same step in the `Timeout` or `Menu` module. Input is
 * passed in already read; printing is not modelled.
 */
module App {
  import opened Wrappers
  import opened IsoTime
  import opened Models
  import opened Timeout
  import opened Menu

  class TimeoutManager {
    var timeoutSeconds: int
    var lastActivity: int
    var isRunning: bool
    var monitor: Monitor
    var app: TaskManagerApp?

    function View(): Watchdog
      reads this
    {
      Watchdog(timeoutSeconds, lastActivity, isRunning, monitor)
    }

    /** `TimeoutManager(timeout_seconds)`, created at time `now`, bound to no application. */
    constructor (now: int, timeoutSeconds: int := DefaultTimeout)
      ensures View() == Initial(timeoutSeconds, now) && app == null
    {
      this.timeoutSeconds := timeoutSeconds;
      lastActivity := now;
      isRunning := false;
      monitor := NoThread;
      app := null;
    }

    /** `set_app_instance(app)`. */
    method SetAppInstance(a: TaskManagerApp)
      modifies this
      ensures View() == old(View()) && app == a
    {
      app := a;
    }

    /** `reset_activity()`. */
    method ResetActivity(now: int)
      modifies this
      ensures View() == Reset(old(View()), now) && app == old(app)
    {
      lastActivity := now;
    }

    /** `start_timeout()`. */
    method StartTimeout(now: int)
      modifies this
      ensures View() == Start(old(View()), now) && app == old(app)
    {
      if isRunning {
        return;
      }
      isRunning := true;
      ResetActivity(now);
      monitor := Polling;
    }

    /** `stop_timeout()`. */
    method StopTimeout()
      modifies this
      ensures View() == Stop(old(View())) && app == old(app)
    {
      isRunning := false;
      if monitor == Polling {
        monitor := Finished;
      }
    }

    /** One pass of `_timeout_monitor()` at time `now`; `fired` when the timeout expired. */
    method MonitorTick(now: int) returns (fired: bool)
      modifies this, (if app == null then {} else {app})`running
      ensures (View(), fired) == Poll(old(View()), now) && app == old(app)
      ensures app != null ==> app.running == (old(app.running) && !fired)
    {
      fired := false;
      if monitor != Polling {
        return;
      }
      if !isRunning {
        monitor := Finished;
        return;
      }
      if now - lastActivity >= timeoutSeconds {
        if app != null {
          app.running := false;
        }
        fired := true;
        monitor := Finished;
      }
    }
  }

  class TaskManagerApp {
    var manager: TaskManager
    var running: bool
    var timeoutManager: TimeoutManager

    ghost predicate Valid()
      reads this, manager, timeoutManager
    {
      manager.Valid() && timeoutManager.app == this
    }

    function View(): Session
      reads this, manager, manager.tasks, timeoutManager
    {
      Session(manager.Contents(), running, timeoutManager.View())
    }

    /** `TaskManagerApp()` at time `now`: empty list, running, a 180-second watchdog bound to it. */
    constructor (now: int)
      ensures Valid() && fresh(manager) && fresh(timeoutManager)
      ensures View() == Session([], true, Initial(DefaultTimeout, now))
    {
      manager := new TaskManager();
      running := true;
      timeoutManager := new TimeoutManager(now);
      new;
      timeoutManager.SetAppInstance(this);
    }

    /** `get_user_choice()` on the already-read input: None when `int()` rejects it. */
    method GetUserChoice(input: Option<int>, now: int) returns (choice: int)
      requires Valid()
      modifies timeoutManager
      ensures Valid()
      ensures choice == ChoiceOf(input) && View() == Touch(old(View()), now)
    {
      timeoutManager.ResetActivity(now);
      match input
      case Some(n) => choice := n;
      case None => choice := 0;
    }

    /** `handle_add_task()` on the title and description typed. */
    method HandleAddTask(title: string, description: string, now: int, stamp: Timestamp)
      requires Valid()
      modifies manager, timeoutManager
      ensures Valid()
      ensures fresh(manager.Objects() - old(manager.Objects()))
      ensures View() == HandleAdd(old(View()), title, description, now, stamp)
    {
      var t := Text.Strip(title);
      timeoutManager.ResetActivity(now);
      ghost var once := View();
      assert once == Touch(old(View()), now);
      if t == [] {
        return;
      }
      var d := Text.Strip(description);
      timeoutManager.ResetActivity(now);
      ghost var touched := View();
      assert touched == Touch(once, now);
      manager.AddTask(t, d, stamp);
      assert View() == touched.(tasks := touched.tasks + [NewTask(t, d, stamp)]);
    }

    /** `handle_complete_task()` on the number typed (None when `int()` rejects it). */
    method HandleCompleteTask(number: Option<int>, now: int, stamp: Timestamp)
      requires Valid()
      modifies manager.tasks, timeoutManager
      ensures Valid()
      ensures fresh(manager.Objects() - old(manager.Objects()))
      ensures View() == HandleComplete(old(View()), number, now, stamp)
    {
      if manager.tasks == [] {
        return;
      }
      timeoutManager.ResetActivity(now);
      if number.Some? {
        var _ := manager.CompleteTask(number.value, stamp);
      }
    }

    /** `handle_delete_task()` on the number typed (None when `int()` rejects it). */
    method HandleDeleteTask(number: Option<int>, now: int)
      requires Valid()
      modifies manager, timeoutManager
      ensures Valid()
      ensures fresh(manager.Objects() - old(manager.Objects()))
      ensures View() == HandleDelete(old(View()), number, now)
    {
      if manager.tasks == [] {
        return;
      }
      timeoutManager.ResetActivity(now);
      if number.Some? {
        var _ := manager.DeleteTask(number.value);
      }
    }

    /** `handle_import_tasks()` on the file name typed and the file's records, if it exists. */
    method HandleImportTasks(filename: string, file: Option<seq<Record>>, now: int, stamp: Timestamp)
      requires Valid()
      modifies manager, timeoutManager
      ensures Valid()
      ensures fresh(manager.Objects() - old(manager.Objects()))
      ensures View() == HandleImport(old(View()), filename, file, now, stamp)
    {
      var name := Text.Strip(filename);
      timeoutManager.ResetActivity(now);
      ghost var touched := View();
      assert touched == Touch(old(View()), now);
      if name != [] {
        var _ := manager.ImportTasks(file, stamp);
        assert View() == touched.(tasks := AfterImport(touched.tasks, file, stamp));
      }
    }

    /** `handle_clear_all_tasks()` on the answer typed. */
    method HandleClearAllTasks(answer: string, now: int)
      requires Valid()
      modifies manager, timeoutManager
      ensures Valid()
      ensures fresh(manager.Objects() - old(manager.Objects()))
      ensures View() == HandleClearAll(old(View()), answer, now)
    {
      var confirm := Text.Lower(Text.Strip(answer));
      assert confirm == "yes" || confirm == "y" <==> Confirms(answer);
      timeoutManager.ResetActivity(now);
      ghost var touched := View();
      assert touched == Touch(old(View()), now);
      if confirm == "yes" || confirm == "y" {
        manager.ClearAllTasks();
        assert View() == touched.(tasks := []);
      }
    }

    /** The `if`/`elif` chain of `run()` on a choice already read. */
    method Dispatch(choice: int, a: Answers, now: int, stamp: Timestamp)
      requires Valid()
      modifies this`running, manager, manager.tasks, timeoutManager
      ensures Valid()
      ensures fresh(manager.Objects() - old(manager.Objects()))
      ensures View() == Menu.Dispatch(old(View()), choice, a, now, stamp)
    {
      ghost var before := View();
      var action := ActionOf(choice);
      if action == Add {
        HandleAddTask(a.title, a.description, now, stamp);
      } else if action == Complete {
        HandleCompleteTask(a.taskNumber, now, stamp);
      } else if action == Delete {
        HandleDeleteTask(a.taskNumber, now);
      } else if action == Export {
        timeoutManager.ResetActivity(now);
      } else if action == Import {
        HandleImportTasks(a.filename, a.importFile, now, stamp);
      } else if action == ClearAll {
        HandleClearAllTasks(a.confirmation, now);
      } else if action == Exit {
        running := false;
      } else {
        assert action in {List, Statistics, History, Invalid};
        assert Menu.Dispatch(before, choice, a, now, stamp) == before;
      }
    }

    /** One pass of the body of the loop in `run()`. */
    method Step(a: Answers, now: int, stamp: Timestamp)
      requires Valid()
      modifies this`running, manager, manager.tasks, timeoutManager
      ensures Valid()
      ensures fresh(manager.Objects() - old(manager.Objects()))
      ensures View() == Menu.Step(old(View()), a, now, stamp)
    {
      var choice := GetUserChoice(a.choice, now);
      Dispatch(choice, a, now, stamp);
      if running {
        timeoutManager.ResetActivity(now);
      }
    }

    /** The monitoring thread's passes that happen while the menu waits for a choice. */
    method PollWhileWaiting(polls: seq<int>)
      requires Valid()
      modifies this`running, timeoutManager
      ensures Valid()
      ensures View() == PollAll(old(View()), polls)
    {
      var i := 0;
      while i < |polls|
        invariant 0 <= i <= |polls|
        invariant Valid()
        invariant View() == PollAll(old(View()), polls[..i])
      {
        assert polls[..i + 1][..i] == polls[..i];
        var _ := timeoutManager.MonitorTick(polls[i]);
        i := i + 1;
      }
      assert polls[..i] == polls;
    }

    /** One pass of the loop in `run()`, with the polls made while its choice is awaited. */
    method Pass(turn: Turn)
      requires Valid()
      modifies this`running, manager, manager.tasks, timeoutManager
      ensures Valid()
      ensures fresh(manager.Objects() - old(manager.Objects()))
      ensures View() == PlayTurn(old(View()), turn)
    {
      PollWhileWaiting(turn.polls);
      Step(turn.answers, turn.now, turn.stamp);
    }

    /**
     * `run()` over a script of passes: start the watchdog, loop while `running`,
     * and stop the watchdog however the loop ends. Running out of script stands
     * for `input()` failing, which leaves the loop through the `finally` block.
     */
    method Run(script: seq<Turn>, start: int) returns (passes: nat)
      requires Valid()
      modifies this`running, manager, manager.tasks, timeoutManager
      ensures Valid()
      ensures passes <= |script|
      ensures RanThrough(Begin(old(View()), start), script, passes)
      ensures passes < |script| ==> !PlayTurns(Begin(old(View()), start), script[..passes]).running
      ensures View() == Finish(PlayTurns(Begin(old(View()), start), script[..passes]))
    {
      timeoutManager.StartTimeout(start);
      ghost var begun := View();
      assert begun == Begin(old(View()), start);
      passes := MenuLoop(script);
      ghost var ended := View();
      timeoutManager.StopTimeout();
      assert View() == Finish(ended);
    }

    /** The `while self.running` loop of `run()`: passes are played until one clears `running`. */
    method MenuLoop(script: seq<Turn>) returns (passes: nat)
      requires Valid()
      modifies this`running, manager, manager.tasks, timeoutManager
      ensures Valid()
      ensures fresh(manager.Objects() - old(manager.Objects()))
      ensures passes <= |script|
      ensures RanThrough(old(View()), script, passes)
      ensures passes < |script| ==> !running
      ensures View() == PlayTurns(old(View()), script[..passes])
    {
      passes := 0;
      while running && passes < |script|
        invariant passes <= |script|
        invariant Valid()
        invariant fresh(manager.Objects() - old(manager.Objects()))
        invariant View() == PlayTurns(old(View()), script[..passes])
        invariant RanThrough(old(View()), script, passes)
      {
        PlayTurnsPrefix(old(View()), script, passes);
        RanThroughNext(old(View()), script, passes);
        Pass(script[passes]);
        passes := passes + 1;
      }
    }
  }
}
