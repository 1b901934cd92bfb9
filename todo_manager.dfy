/** The to-do list: numbered tasks, added at the end, completed or deleted by 1-based number. */
module TodoManager {
  import opened Numerals
  import opened TodoTask

  const EMPTY_MESSAGE := "You don't have any tasks yet.\n"

  /** The line `viewAllTasks` writes for the task numbered `number`. */
  function Line(number: nat, t: TaskState): string {
    NatToString(number) + ". " + Display(t) + "\n"
  }

  /** The lines for `ts`, numbered consecutively from `first`. */
  function Lines(ts: seq<TaskState>, first: nat): string {
    if ts == [] then "" else Line(first, ts[0]) + Lines(ts[1..], first + 1)
  }

  /** The whole `viewAllTasks` text for a list in state `ts`. */
  function Listing(ts: seq<TaskState>): string {
    var body := Lines(ts, 1);
    if |body| == 0 then EMPTY_MESSAGE else body
  }

  /** Appending a task appends exactly its line, numbered after the others. */
  lemma LinesSnoc(ts: seq<TaskState>, t: TaskState, first: nat)
    ensures Lines(ts + [t], first) == Lines(ts, first) + Line(first + |ts|, t)
  {
    LinesAppend(ts, [t], first);
    assert [t][1..] == [];
    assert Lines([t], first + |ts|) == Line(first + |ts|, t) + "";
  }

  /** The lines of two lists one after the other are the lines of the first, then the second renumbered. */
  lemma {:induction false} LinesAppend(a: seq<TaskState>, b: seq<TaskState>, first: nat)
    ensures Lines(a + b, first) == Lines(a, first) + Lines(b, first + |a|)
  {
    if a == [] {
      assert a + b == b;
    } else {
      assert (a + b)[1..] == a[1..] + b;
      LinesAppend(a[1..], b, first + 1);
      var head := Line(first, a[0]);
      var x, y := Lines(a[1..], first + 1), Lines(b, first + |a|);
      assert head + (x + y) == (head + x) + y;
    }
  }

  /** Task i (0-based) appears on its own line numbered first + i, between the lines before and after it. */
  lemma LinesAt(ts: seq<TaskState>, first: nat, i: nat)
    requires i < |ts|
    ensures Lines(ts, first) ==
              Lines(ts[..i], first) + Line(first + i, ts[i]) + Lines(ts[i + 1..], first + i + 1)
  {
    assert ts == ts[..i] + [ts[i]] + ts[i + 1..];
    LinesSplit(ts[..i], ts[i], ts[i + 1..], first);
  }

  /** The lines of a list split around one task: its line sits between the others, numbered in place. */
  lemma LinesSplit(before: seq<TaskState>, t: TaskState, after: seq<TaskState>, first: nat)
    ensures Lines(before + [t] + after, first) ==
              Lines(before, first) + Line(first + |before|, t) + Lines(after, first + |before| + 1)
  {
    LinesAppend(before + [t], after, first);
    LinesSnoc(before, t, first);
  }

  /** Appending a line piece by piece, as a string builder does, appends the whole line. */
  lemma AppendLine(text: string, number: string, display: string)
    ensures text + number + ". " + display + "\n" == text + (number + ". " + display + "\n")
  {
  }

  /**
   * The empty message appears exactly when the list is empty; a non-empty
   * list, even of tasks with empty descriptions, is listed line by line.
   */
  lemma ListingCases(ts: seq<TaskState>)
    ensures ts == [] ==> Listing(ts) == EMPTY_MESSAGE
    ensures ts != [] ==> Listing(ts) == Lines(ts, 1) && Listing(ts) != EMPTY_MESSAGE
  {
    if ts != [] {
      var body := Lines(ts, 1);
      assert body[0] == NatToString(1)[0];
      assert body[0] == '1';
    }
  }

  /** `remove(n - 1)`: the element at n - 1 goes, later elements shift down by one. */
  function Deleted<T>(s: seq<T>, n: int): (r: seq<T>)
    requires 1 <= n <= |s|
    ensures |r| == |s| - 1
    ensures forall j :: 0 <= j < n - 1 ==> r[j] == s[j]
    ensures forall j :: n - 1 <= j < |r| ==> r[j] == s[j + 1]
  {
    s[..n - 1] + s[n..]
  }

  /** Task n marked completed; length, order, descriptions and the other flags kept. */
  function WithCompleted(ts: seq<TaskState>, n: int): (r: seq<TaskState>)
    requires 1 <= n <= |ts|
    ensures |r| == |ts|
    ensures r[n - 1] == TaskState(ts[n - 1].description, true)
    ensures forall j :: 0 <= j < |ts| && j != n - 1 ==> r[j] == ts[j]
  {
    ts[n - 1 := TaskState(ts[n - 1].description, true)]
  }

  /** Completing the same task twice leaves the same list as completing it once. */
  lemma CompleteIdempotent(ts: seq<TaskState>, n: int)
    requires 1 <= n <= |ts|
    ensures WithCompleted(WithCompleted(ts, n), n) == WithCompleted(ts, n)
  {
  }

  class TaskManager {
    var tasks: seq<Task>

    /** The list never holds the same task object twice: each was created by AddTask. */
    ghost predicate Valid()
      reads this
    {
      forall i, j :: 0 <= i < j < |tasks| ==> tasks[i] != tasks[j]
    }

    ghost function View(): (v: seq<TaskState>)
      reads this, tasks
      ensures |v| == |tasks|
      ensures forall i :: 0 <= i < |tasks| ==> v[i] == tasks[i].State()
    {
      seq(|tasks|, i reads this, tasks requires 0 <= i < |tasks| => tasks[i].State())
    }

    constructor ()
      ensures Valid() && tasks == [] && View() == []
    {
      tasks := [];
    }

    predicate IsValidTaskNumber(taskNumber: int)
      reads this
    {
      taskNumber > 0 && taskNumber <= |tasks|
    }

    /** Appends a new, uncompleted task with the description as given (not validated). */
    method AddTask(description: string)
      requires Valid()
      modifies this
      ensures Valid()
      ensures |tasks| == |old(tasks)| + 1 && tasks[..|old(tasks)|] == old(tasks)
      ensures fresh(tasks[|tasks| - 1])
      ensures View() == old(View()) + [TaskState(description, false)]
    {
      var task := new Task(description);
      tasks := tasks + [task];
      assert tasks[..|old(tasks)|] == old(tasks);
    }

    method ViewAllTasks() returns (text: string)
      ensures text == Listing(View())
    {
      var taskList := "";
      var index := 1;
      var i := 0;
      ghost var v := View();
      while i < |tasks|
        invariant 0 <= i <= |tasks| && index == i + 1
        invariant taskList == Lines(v[..i], 1)
      {
        var task := tasks[i];
        LinesSnoc(v[..i], v[i], 1);
        assert v[..i + 1] == v[..i] + [v[i]];
        assert task.DisplayString() == Display(v[i]);
        AppendLine(taskList, NatToString(index), task.DisplayString());
        taskList := taskList + NatToString(index) + ". " + task.DisplayString() + "\n";
        index := index + 1;
        i := i + 1;
      }
      assert v[..i] == v;
      if |taskList| == 0 {
        return EMPTY_MESSAGE;
      }
      return taskList;
    }

    /** Removes task `taskNumber` when it is a valid 1-based number; reports whether it did. */
    method DeleteTask(taskNumber: int) returns (deleted: bool)
      requires Valid()
      modifies this
      ensures Valid()
      ensures deleted <==> 1 <= taskNumber <= |old(tasks)|
      ensures deleted ==> tasks == Deleted(old(tasks), taskNumber)
      ensures deleted ==> View() == Deleted(old(View()), taskNumber)
      ensures !deleted ==> tasks == old(tasks)
    {
      if IsValidTaskNumber(taskNumber) {
        tasks := tasks[..taskNumber - 1] + tasks[taskNumber..];
        return true;
      }
      return false;
    }

    /** Completes task `taskNumber` when it is a valid 1-based number; reports whether it was. */
    method CompleteTask(taskNumber: int) returns (completed: bool)
      requires Valid()
      modifies tasks
      ensures Valid() && tasks == old(tasks)
      ensures completed <==> 1 <= taskNumber <= |tasks|
      ensures completed ==> View() == WithCompleted(old(View()), taskNumber)
      ensures !completed ==> View() == old(View())
    {
      if IsValidTaskNumber(taskNumber) {
        tasks[taskNumber - 1].Complete();
        return true;
      }
      return false;
    }
  }
}
