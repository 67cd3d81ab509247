/**
 * Properties of the task commands, stated over the task sequences that the
 * `TaskList` methods are proved to produce.
 */
module TdrProperties {
  import Decimal
  import opened Tdr

  /** Every stored id equals the task's 1-based position. */
  ghost predicate IdsArePositions(ts: seq<Task>) {
    forall k :: 0 <= k < |ts| ==> ts[k].id == k + 1
  }

  // ---- complete and uncomplete ----

  /** Of two flag updates of the same id, the second one decides. */
  lemma MarkedLastWins(ts: seq<Task>, id: Usize, first: bool, second: bool)
    requires |ts| <= ISIZE_MAX
    ensures Marked(Marked(ts, id, first), id, second) == Marked(ts, id, second)
  {
  }

  /** Completing a task twice leaves the same tasks as completing it once. */
  lemma CompleteIdempotent(ts: seq<Task>, id: Usize)
    requires |ts| <= ISIZE_MAX
    ensures Marked(Marked(ts, id, true), id, true) == Marked(ts, id, true)
  {
  }

  /** Completing and then uncompleting a task leaves it open, as uncompleting alone would. */
  lemma CompleteThenUncomplete(ts: seq<Task>, id: Usize)
    requires |ts| <= ISIZE_MAX && 1 <= id <= |ts|
    ensures !Marked(Marked(ts, id, true), id, false)[id - 1].completed
    ensures Marked(Marked(ts, id, true), id, false) == Marked(ts, id, false)
  {
  }

  /** An id that addresses no task (0, or past the end) changes nothing. */
  lemma OutOfRangeIsNoOp(ts: seq<Task>, id: Usize, done: bool)
    requires |ts| <= ISIZE_MAX && (id == 0 || id > |ts|)
    ensures Slot(ts, id) == None
    ensures Marked(ts, id, done) == ts
    ensures Removed(ts, id) == ts
  {
  }

  /** Flag updates never touch stored ids. */
  lemma MarkedKeepsPositions(ts: seq<Task>, id: Usize, done: bool)
    requires |ts| <= ISIZE_MAX && IdsArePositions(ts)
    ensures IdsArePositions(Marked(ts, id, done))
  {
  }

  // ---- remove ----

  /**
   * After `remove id`, the task that `k` addressed is addressed by `k - 1`
   * for every `k` past `id`, and by `k` itself for every `k` before `id`.
   */
  lemma RemoveShiftsAddresses(ts: seq<Task>, id: Usize, k: Usize)
    requires |ts| <= ISIZE_MAX && 1 <= id <= |ts| && 1 <= k <= |ts| && k != id
    ensures k < id ==> Slot(Removed(ts, id), k) == Some(k - 1) && Removed(ts, id)[k - 1] == ts[k - 1]
    ensures k > id ==> Slot(Removed(ts, id), k - 1) == Some(k - 2) && Removed(ts, id)[k - 2] == ts[k - 1]
  {
  }

  /** Removing the last task keeps ids equal to positions. */
  lemma RemovingLastKeepsPositions(ts: seq<Task>)
    requires 1 <= |ts| <= ISIZE_MAX && IdsArePositions(ts)
    ensures IdsArePositions(Removed(ts, |ts|))
  {
  }

  /**
   * Removing any task but the last breaks the match of ids and positions:
   * the task that moves into the freed position keeps its old, larger id.
   */
  lemma RemovingEarlierBreaksPositions(ts: seq<Task>, id: Usize)
    requires |ts| <= ISIZE_MAX && IdsArePositions(ts) && 1 <= id < |ts|
    ensures !IdsArePositions(Removed(ts, id))
  {
    var r := Removed(ts, id);
    assert r[id - 1] == ts[id];
    assert r[id - 1].id == id + 1;
  }

  // ---- add ----

  /** Adding a task keeps ids equal to positions. */
  lemma AppendedKeepsPositions(ts: seq<Task>, text: string)
    requires |ts| < ISIZE_MAX && IdsArePositions(ts)
    ensures IdsArePositions(Appended(ts, text))
  {
  }

  /**
   * Removing a task other than the last and then adding one gives two tasks
   * with the same stored id: the new task is numbered by the shortened
   * length, which is the id the old last task still carries.
   */
  lemma RemoveThenAddRepeatsId(ts: seq<Task>, id: Usize, text: string)
    requires |ts| <= ISIZE_MAX && IdsArePositions(ts) && 1 <= id < |ts|
    ensures var r := Appended(Removed(ts, id), text);
      |r| == |ts| && r[|ts| - 1].id == r[|ts| - 2].id == |ts|
  {
  }

  // ---- rendering ----

  /** Two tasks render alike exactly when their flags and texts agree. */
  lemma ToStringInjective(a: Task, b: Task)
    ensures a.ToString() == b.ToString() <==> a.completed == b.completed && a.text == b.text
  {
  }

  /** What a line of `list` says: the position, the flag and the text. */
  datatype LineParts = LineParts(position: nat, completed: bool, text: string)

  /** Reads a `list` line back: digits, ": [", a flag, "] ", then the text. */
  function ParseLine(s: string): Option<LineParts> {
    var k := Decimal.DigitRun(s);
    if 1 <= k && k + 6 <= |s| && s[k..k + 3] == ": [" && (s[k + 3] == 'x' || s[k + 3] == ' ')
      && s[k + 4..k + 6] == "] "
    then Some(LineParts(Decimal.Value(s[..k]), s[k + 3] == 'x', s[k + 6..]))
    else None
  }

  /** The six characters between a line's number and its task text. */
  function Separator(completed: bool): string {
    [':', ' ', '[', if completed then 'x' else ' ', ']', ' ']
  }

  /** A `list` line is its number, the separator for the flag, then the text. */
  lemma LineShape(i: nat, t: Task)
    ensures Line(i, t) == Decimal.Show(i + 1) + (Separator(t.completed) + t.text)
  {
    var box := if t.completed then "[x] " else "[ ] ";
    assert t.ToString() == box + t.text;
    assert ": " + box == Separator(t.completed);
    calc {
      Line(i, t);
      Decimal.Show(i + 1) + ": " + (box + t.text);
      Decimal.Show(i + 1) + ((": " + box) + t.text);
    }
  }

  /** Any digits, a separator and a text parse back into their value, flag and text. */
  lemma ParseLineOfParts(d: string, completed: bool, text: string)
    requires 1 <= |d| && Decimal.AllDigits(d)
    ensures ParseLine(d + (Separator(completed) + text))
         == Some(LineParts(Decimal.Value(d), completed, text))
  {
    var rest := Separator(completed) + text;
    var s, k := d + rest, |d|;
    Decimal.DigitRunOfDigitsThen(d, rest);
    assert s[k..] == rest;
    assert s[k..k + 3] == rest[..3] == ": [";
    assert s[k + 3] == rest[3];
    assert s[k + 4..k + 6] == rest[4..6] == "] ";
    assert s[k + 6..] == rest[6..] == text;
  }

  /** Every `list` line can be read back into its position, flag and text. */
  lemma ParseLineOfLine(i: nat, t: Task)
    ensures ParseLine(Line(i, t)) == Some(LineParts(i + 1, t.completed, t.text))
  {
    LineShape(i, t);
    ParseLineOfParts(Decimal.Show(i + 1), t.completed, t.text);
    Decimal.ValueOfShow(i + 1);
  }

  /** Two distinct positions never print the same `list` line. */
  lemma LinesDistinct(i: nat, j: nat, a: Task, b: Task)
    requires i != j
    ensures Line(i, a) != Line(j, b)
  {
    ParseLineOfLine(i, a);
    ParseLineOfLine(j, b);
  }

  // ---- a session ----

  /**
   * An example session, not a general property: `add "buy milk"`, then
   * `complete 1`, then `list`, then `complete 99`. Every fact checked here
   * follows from the postconditions of the `TaskList` methods.
   */
  method BuyMilkSession() {
    var list := new TaskList.Load(None);
    var out, saved := list.Add("buy milk");
    assert list.tasks == [Task(1, "buy milk", false)];
    assert Decimal.Show(1) == "1";
    assert out == ["Added task " + "1" + " with text " + "buy milk"];
    assert "Added task " + "1" + " with text " + "buy milk" == "Added task 1 with text buy milk";
    out, saved := list.Complete(1);
    assert saved && list.tasks == [Task(1, "buy milk", true)];
    out := list.List();
    assert list.tasks[0].ToString() == "[x] " + "buy milk";
    assert out == ["1" + ": " + ("[x] " + "buy milk")];
    assert "1" + ": " + ("[x] " + "buy milk") == "1: [x] buy milk";
    out, saved := list.Complete(99);
    assert !saved && out == [] && list.tasks == [Task(1, "buy milk", true)];
  }
}
