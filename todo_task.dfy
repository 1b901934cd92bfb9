/** A to-do item: a fixed description and a completion flag that can only be set. */
module TodoTask {

  /** What a task reports through `getDescription()` and `isCompleted()`. */
  datatype TaskState = TaskState(description: string, completed: bool)

  const DEBUG_PREFIX := "Task{description="

  /**
   * The `getDisplayString()` text: a "[X]" or "[ ]" box, a space, then the
   * description, which can be read back from position 4 on.
   */
  function Display(t: TaskState): (s: string)
    ensures |s| == |t.description| + 4 && s[4..] == t.description
    ensures s[..4] == "[X] " || s[..4] == "[ ] "
    ensures s[..4] == "[X] " <==> t.completed
  {
    var status := if t.completed then "[X]" else "[ ]";
    status + " " + t.description
  }

  /** Java's rendering of a boolean in string concatenation. */
  function BoolText(b: bool): (s: string)
    ensures s == "true" || s == "false"
    ensures s == "true" <==> b
  {
    if b then "true" else "false"
  }

  /**
   * The `toString()` text: the prefix, the description (readable back at a
   * fixed offset) and a suffix that tells whether the task is completed.
   */
  function DebugText(t: TaskState): (s: string)
    ensures |s| == |DEBUG_PREFIX| + |t.description| + (if t.completed then 17 else 18)
    ensures s[..|DEBUG_PREFIX|] == DEBUG_PREFIX
    ensures s[|DEBUG_PREFIX|..|DEBUG_PREFIX| + |t.description|] == t.description
    ensures s[|DEBUG_PREFIX| + |t.description|..] ==
              if t.completed then ", completed=true}" else ", completed=false}"
  {
    DEBUG_PREFIX + t.description + ", completed=" + BoolText(t.completed) + "}"
  }

  class Task {
    const description: string
    var completed: bool

    /** A new task keeps the description as given, even "", and starts uncompleted. */
    constructor (description: string)
      ensures this.description == description && !completed
    {
      this.description := description;
      completed := false;
    }

    /** Marks the task completed; calling it again changes nothing. */
    method Complete()
      modifies this
      ensures completed
      ensures State() == TaskState(description, true)
    {
      completed := true;
    }

    function State(): TaskState
      reads this
    {
      TaskState(description, completed)
    }

    /** `getDisplayString()`: the box tells whether this task is completed, then its description. */
    function DisplayString(): (s: string)
      reads this
      ensures |s| == |description| + 4 && s[4..] == description
      ensures s[..4] == "[X] " || s[..4] == "[ ] "
      ensures s[..4] == "[X] " <==> completed
    {
      Display(State())
    }

    /** `toString()`: this task's description and completion flag, in the debug format. */
    function ToString(): (s: string)
      reads this
      ensures |s| > |DEBUG_PREFIX| + |description| && s[..|DEBUG_PREFIX|] == DEBUG_PREFIX
      ensures s[|DEBUG_PREFIX|..|DEBUG_PREFIX| + |description|] == description
      ensures s[|DEBUG_PREFIX| + |description|..] == if completed then ", completed=true}" else ", completed=false}"
    {
      DebugText(State())
    }
  }
}
