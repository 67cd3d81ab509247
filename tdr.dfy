/**
 * The task collection of the `tdr` command-line tool: a vector of tasks
 * addressed by 1-based position, and the seven commands that read or change
 * it in place. Printing is modelled by returning the printed lines, and
 * writing the file back is modelled by a returned `saved` flag.
 */
module Tdr {
  import Decimal

  /** Bounds of Rust's `usize` and `isize` on a 64-bit target. */
  const USIZE_MAX: nat := 0xFFFF_FFFF_FFFF_FFFF
  const ISIZE_MAX: nat := 0x7FFF_FFFF_FFFF_FFFF

  type Usize = n: nat | n <= USIZE_MAX

  datatype Option<T> = None | Some(value: T)

  /** One to-do item. `id` is fixed when the task is created. */
  datatype Task = Task(id: Usize, text: string, completed: bool) {

    /** `Task::new`: a fresh task is never completed. */
    static function New(id: Usize, text: string): (t: Task)
      ensures t.id == id && t.text == text && !t.completed
    {
      Task(id, text, false)
    }

    /** `Task::complete`: sets the flag and keeps the id and text. */
    function Complete(): (t: Task)
      ensures t.completed && t.id == id && t.text == text
    {
      this.(completed := true)
    }

    /** `Task::uncomplete`: clears the flag and keeps the id and text. */
    function Uncomplete(): (t: Task)
      ensures !t.completed && t.id == id && t.text == text
    {
      this.(completed := false)
    }

    /** `Display for Task`: a four-character check box, then the text. */
    function ToString(): (s: string)
      ensures |s| == |text| + 4 && s[4..] == text
      ensures s[..4] == (if completed then "[x] " else "[ ] ")
    {
      (if completed then "[x] " else "[ ] ") + text
    }
  }

  /** The subcommands the tool accepts. */
  datatype Command =
    | Add(text: string)
    | Complete(id: Usize)
    | Uncomplete(id: Usize)
    | Get(id: Usize)
    | Remove(id: Usize)
    | List
    | Clear

  /**
   * `id - 1` on a `usize` as a release build computes it: subtraction modulo
   * 2^64, so that 0 becomes `usize::MAX`.
   */
  function WrappingDecrement(id: Usize): (r: Usize)
    ensures (r + 1) % (USIZE_MAX + 1) == id
  {
    if id == 0 then USIZE_MAX else id - 1
  }

  /**
   * The position `tasks.get(id - 1)` finds, or `None` when it finds nothing.
   * A vector never holds more than `isize::MAX` elements, so the wrapped
   * index of id 0 is always out of range.
   */
  function Slot(ts: seq<Task>, id: Usize): (r: Option<nat>)
    requires |ts| <= ISIZE_MAX
    ensures r.Some? <==> 1 <= id <= |ts|
    ensures r.Some? ==> r.value == id - 1
  {
    var i := WrappingDecrement(id);
    if i < |ts| then Some(i) else None
  }

  /** The tasks after `add`: one new, open task at the end, numbered one past the old length. */
  function Appended(ts: seq<Task>, text: string): (r: seq<Task>)
    requires |ts| < ISIZE_MAX
    ensures |r| == |ts| + 1 && r[..|ts|] == ts
    ensures r[|ts|].id == |ts| + 1 && r[|ts|].text == text && !r[|ts|].completed
  {
    ts + [Task.New(|ts| + 1, text)]
  }

  /**
   * The tasks after `complete id` (done) or `uncomplete id` (not done): only
   * the flag of the task at position `id` changes, and an id that finds no
   * task changes nothing.
   */
  function Marked(ts: seq<Task>, id: Usize, done: bool): (r: seq<Task>)
    requires |ts| <= ISIZE_MAX
    ensures |r| == |ts|
    ensures forall k :: 0 <= k < |ts| && k != id - 1 ==> r[k] == ts[k]
    ensures 1 <= id <= |ts| ==> r[id - 1] == ts[id - 1].(completed := done)
    ensures !(1 <= id <= |ts|) ==> r == ts
  {
    match Slot(ts, id)
    case None => ts
    case Some(i) => ts[i := if done then ts[i].Complete() else ts[i].Uncomplete()]
  }

  /**
   * The tasks after `remove id`: the task at position `id` is gone, the ones
   * before it stay where they were, the ones after it move down by one, and
   * no task's stored id is rewritten. An id that finds no task changes nothing.
   */
  function Removed(ts: seq<Task>, id: Usize): (r: seq<Task>)
    requires |ts| <= ISIZE_MAX
    ensures 1 <= id <= |ts| ==> |r| == |ts| - 1
    ensures 1 <= id <= |ts| ==> forall k :: 0 <= k < |r| ==> r[k] == (if k < id - 1 then ts[k] else ts[k + 1])
    ensures !(1 <= id <= |ts|) ==> r == ts
  {
    match Slot(ts, id)
    case None => ts
    case Some(i) => ts[..i] + ts[i + 1..]
  }

  /**
   * The line `list` prints for the task at 0-based position `i`: the
   * position counted from 1 in decimal, then ": ", then the task's rendering.
   */
  function Line(i: nat, t: Task): (s: string)
    ensures var k := |Decimal.Show(i + 1)|;
      && |s| == k + 6 + |t.text|
      && Decimal.AllDigits(s[..k]) && Decimal.Value(s[..k]) == i + 1
      && s[k..k + 2] == ": " && s[k + 2..] == t.ToString()
  {
    var d := Decimal.Show(i + 1);
    Decimal.ValueOfShow(i + 1);
    assert (d + ": " + t.ToString())[..|d|] == d;
    d + ": " + t.ToString()
  }

  /** The loaded task collection of one run of the tool. */
  class TaskList {
    var tasks: seq<Task>

    ghost predicate Valid()
      reads this
    {
      |tasks| <= ISIZE_MAX
    }

    /**
     * `TaskList::load` after the file has been read: the parsed collection,
     * or an empty one when the file did not parse.
     */
    constructor Load(parsed: Option<seq<Task>>)
      requires parsed.Some? ==> |parsed.value| <= ISIZE_MAX
      ensures Valid()
      ensures tasks == (if parsed.Some? then parsed.value else [])
    {
      tasks := if parsed.Some? then parsed.value else [];
    }

    /** `add text`: pushes a task numbered one past the old length, saves, and reports that number. */
    method Add(text: string) returns (out: seq<string>, saved: bool)
      requires Valid() && |tasks| < ISIZE_MAX
      modifies this
      ensures Valid() && tasks == Appended(old(tasks), text)
      ensures saved
      ensures out == ["Added task " + Decimal.Show(|tasks|) + " with text " + text]
    {
      tasks := tasks + [Task.New(|tasks| + 1, text)];
      saved := true;
      out := ["Added task " + Decimal.Show(|tasks|) + " with text " + text];
    }

    /** `complete id`: sets the flag of the task at position `id`; saves and reports only if there is one. */
    method Complete(id: Usize) returns (out: seq<string>, saved: bool)
      requires Valid()
      modifies this
      ensures Valid() && tasks == Marked(old(tasks), id, true)
      ensures saved <==> 1 <= id <= |tasks|
      ensures out == (if saved then ["Completed task " + Decimal.Show(id)] else [])
    {
      var i := WrappingDecrement(id);
      if i < |tasks| {
        tasks := tasks[i := tasks[i].Complete()];
        saved := true;
        out := ["Completed task " + Decimal.Show(id)];
      } else {
        saved := false;
        out := [];
      }
    }

    /** `uncomplete id`: clears the flag of the task at position `id`; saves and reports only if there is one. */
    method Uncomplete(id: Usize) returns (out: seq<string>, saved: bool)
      requires Valid()
      modifies this
      ensures Valid() && tasks == Marked(old(tasks), id, false)
      ensures saved <==> 1 <= id <= |tasks|
      ensures out == (if saved then ["Uncompleted task " + Decimal.Show(id)] else [])
    {
      var i := WrappingDecrement(id);
      if i < |tasks| {
        tasks := tasks[i := tasks[i].Uncomplete()];
        saved := true;
        out := ["Uncompleted task " + Decimal.Show(id)];
      } else {
        saved := false;
        out := [];
      }
    }

    /** `remove id`: deletes the task at position `id`; saves and reports only if there is one. */
    method Remove(id: Usize) returns (out: seq<string>, saved: bool)
      requires Valid()
      modifies this
      ensures Valid() && tasks == Removed(old(tasks), id)
      ensures saved <==> 1 <= id <= |old(tasks)|
      ensures out == (if saved then ["Removed task " + Decimal.Show(id)] else [])
    {
      var i := WrappingDecrement(id);
      if i < |tasks| {
        tasks := tasks[..i] + tasks[i + 1..];
        saved := true;
        out := ["Removed task " + Decimal.Show(id)];
      } else {
        saved := false;
        out := [];
      }
    }

    /** `get id`: the rendering of the task at position `id`, or nothing. */
    method Get(id: Usize) returns (out: seq<string>)
      requires Valid()
      ensures 1 <= id <= |tasks| ==> out == [tasks[id - 1].ToString()]
      ensures !(1 <= id <= |tasks|) ==> out == []
    {
      var i := WrappingDecrement(id);
      if i < |tasks| {
        out := [tasks[i].ToString()];
      } else {
        out := [];
      }
    }

    /** `list`: one line per task, in order, numbered by position from 1. */
    method List() returns (out: seq<string>)
      requires Valid()
      ensures |out| == |tasks|
      ensures forall i :: 0 <= i < |tasks| ==> out[i] == Line(i, tasks[i])
    {
      out := [];
      for i := 0 to |tasks|
        invariant |out| == i
        invariant forall k :: 0 <= k < i ==> out[k] == Line(k, tasks[k])
      {
        out := out + [Line(i, tasks[i])];
      }
    }

    /** `clear`: empties the collection, whatever it held, and saves. */
    method Clear() returns (out: seq<string>, saved: bool)
      requires Valid()
      modifies this
      ensures Valid() && tasks == []
      ensures saved && out == ["Cleared all tasks"]
    {
      tasks := [];
      saved := true;
      out := ["Cleared all tasks"];
    }

    /**
     * One run of the tool after loading: applies the parsed command (or
     * reports that there is none) and says whether the file is written back.
     */
    method Run(command: Option<Command>) returns (out: seq<string>, saved: bool)
      requires Valid()
      requires command.Some? && command.value.Add? ==> |tasks| < ISIZE_MAX
      modifies this
      ensures Valid()
      ensures command.None? ==> tasks == old(tasks) && !saved && out == ["No command specified"]
      ensures command.Some? ==> match command.value
        case Add(text) =>
          tasks == Appended(old(tasks), text) && saved
          && out == ["Added task " + Decimal.Show(|tasks|) + " with text " + text]
        case Complete(id) =>
          tasks == Marked(old(tasks), id, true) && (saved <==> 1 <= id <= |tasks|)
          && out == (if saved then ["Completed task " + Decimal.Show(id)] else [])
        case Uncomplete(id) =>
          tasks == Marked(old(tasks), id, false) && (saved <==> 1 <= id <= |tasks|)
          && out == (if saved then ["Uncompleted task " + Decimal.Show(id)] else [])
        case Remove(id) =>
          tasks == Removed(old(tasks), id) && (saved <==> 1 <= id <= |old(tasks)|)
          && out == (if saved then ["Removed task " + Decimal.Show(id)] else [])
        case Get(id) =>
          tasks == old(tasks) && !saved
          && out == (if 1 <= id <= |tasks| then [tasks[id - 1].ToString()] else [])
        case List =>
          tasks == old(tasks) && !saved
          && |out| == |tasks| && forall i :: 0 <= i < |tasks| ==> out[i] == Line(i, tasks[i])
        case Clear => tasks == [] && saved && out == ["Cleared all tasks"]
    {
      match command {
        case None =>
          out, saved := ["No command specified"], false;
        case Some(c) =>
          match c {
            case Add(text) => out, saved := this.Add(text);
            case Complete(id) => out, saved := this.Complete(id);
            case Uncomplete(id) => out, saved := this.Uncomplete(id);
            case Remove(id) => out, saved := this.Remove(id);
            case Get(id) => out := this.Get(id); saved := false;
            case List => out := this.List(); saved := false;
            case Clear => out, saved := this.Clear();
          }
      }
    }
  }
}
