/** The Markdown exporter (`convert_to_markdown`): a heading, a Tasks
    section with one bullet per task, then a Memos section with one bullet
    per memo.  A field of the records passed to `convert_to_markdown` may
    be missing or null; both show as "None" in the output. */
module Markdown {
  import opened Strings

  /** A task record; `None` stands for a missing key or a JSON null. */
  datatype Task = Task(
    category: Option<string>,
    action: Option<string>,
    priority: Option<string>,
    deadline: Option<string>)

  /** A memo record; `None` stands for a missing key or a JSON null. */
  datatype Memo = Memo(content: Option<string>)

  const TitleLine: string := "# Brain Cleaner Results"
  const TasksLine: string := "## ✅ Tasks"
  const MemosLine: string := "## 💡 Memos"
  const Title: string := TitleLine + "\n\n"
  const TasksHeading: string := TasksLine + "\n"
  const MemosHeading: string := "\n" + MemosLine + "\n"
  const HighIcon: char := '🔥'
  const NormalIcon: char := '🔹'
  const HighPriority: string := "High"

  /** Python truthiness of a field that is a string or None. */
  predicate IsTruthy(v: Option<string>)
  {
    v.Some? && v.value != ""
  }

  function PriorityIcon(priority: Option<string>): char
  {
    if priority == Some(HighPriority) then HighIcon else NormalIcon
  }

  function DeadlineSuffix(deadline: Option<string>): string
  {
    if IsTruthy(deadline) then " (📅 " + deadline.value + ")" else ""
  }

  /** One task bullet, without its line break. */
  function TaskRow(t: Task): string
  {
    "- [" + PyStr(t.category) + "] " + PyStr(t.action) + " "
      + [PriorityIcon(t.priority)] + DeadlineSuffix(t.deadline)
  }

  /** One memo bullet, without its line break. */
  function MemoRow(m: Memo): string
  {
    "- " + PyStr(m.content)
  }

  /** The task bullets of `ts`, each ending in a line break, in order. */
  function TaskLines(ts: seq<Task>): string
  {
    if ts == [] then "" else TaskLines(ts[..|ts| - 1]) + (TaskRow(ts[|ts| - 1]) + "\n")
  }

  /** The memo bullets of `ms`, each ending in a line break, in order. */
  function MemoLines(ms: seq<Memo>): string
  {
    if ms == [] then "" else MemoLines(ms[..|ms| - 1]) + (MemoRow(ms[|ms| - 1]) + "\n")
  }

  /** The whole document. */
  function Render(tasks: seq<Task>, memos: seq<Memo>): string
  {
    Title + TasksHeading + TaskLines(tasks) + MemosHeading + MemoLines(memos)
  }

  /** `convert_to_markdown`: grows the document one piece at a time. */
  method ConvertToMarkdown(tasks: seq<Task>, memos: seq<Memo>) returns (md: string)
    ensures md == Render(tasks, memos)
  {
    md := Title;
    md := md + TasksHeading;
    for i := 0 to |tasks|
      invariant md == Title + TasksHeading + TaskLines(tasks[..i])
    {
      var t := tasks[i];
      var icon := if t.priority == Some(HighPriority) then HighIcon else NormalIcon;
      ghost var before := md;
      md := md + ("- [" + PyStr(t.category) + "] " + PyStr(t.action) + " " + [icon]);
      if IsTruthy(t.deadline) {
        md := md + (" (📅 " + t.deadline.value + ")");
      }
      md := md + "\n";
      assert md == before + (TaskRow(t) + "\n");
      assert tasks[..i + 1][..i] == tasks[..i];
      Assoc(Title + TasksHeading, TaskLines(tasks[..i]), TaskRow(t) + "\n");
    }
    assert tasks[..|tasks|] == tasks;
    md := md + MemosHeading;
    for i := 0 to |memos|
      invariant md == Title + TasksHeading + TaskLines(tasks) + MemosHeading + MemoLines(memos[..i])
    {
      md := md + ("- " + PyStr(memos[i].content) + "\n");
      assert memos[..i + 1][..i] == memos[..i];
      Assoc(Title + TasksHeading + TaskLines(tasks) + MemosHeading, MemoLines(memos[..i]), MemoRow(memos[i]) + "\n");
    }
    assert memos[..|memos|] == memos;
  }

  lemma Assoc<T>(a: seq<T>, b: seq<T>, c: seq<T>)
    ensures (a + b) + c == a + (b + c)
  {
  }

  // ---------------------------------------------------------------------
  // Reading the document back: its lines
  // ---------------------------------------------------------------------

  /** Python's `s.split('\n')`: the pieces between line breaks. */
  function Split(s: string): (r: seq<string>)
    ensures |r| >= 1
    decreases |s|
  {
    if s == [] then [""]
    else
      var rest := Split(s[1..]);
      if s[0] == '\n' then [""] + rest else [[s[0]] + rest[0]] + rest[1..]
  }

  /** Splitting a line followed by a break gives that line, then the rest. */
  lemma {:induction false} SplitLine(a: string, b: string)
    requires '\n' !in a
    ensures Split(a + "\n" + b) == [a] + Split(b)
    decreases |a|
  {
    if a == [] {
      assert a + "\n" + b == "\n" + b;
      assert ("\n" + b)[1..] == b;
    } else {
      SplitLine(a[1..], b);
      assert (a + "\n" + b)[1..] == a[1..] + "\n" + b;
      assert [a[0]] + a[1..] == a;
    }
  }

  /** A task whose shown fields hold no line break. */
  predicate SingleLineTask(t: Task)
  {
    && '\n' !in PyStr(t.category)
    && '\n' !in PyStr(t.action)
    && '\n' !in PyStr(t.deadline)
  }

  predicate SingleLineMemo(m: Memo)
  {
    '\n' !in PyStr(m.content)
  }

  function TaskRows(ts: seq<Task>): (r: seq<string>)
    ensures |r| == |ts|
    ensures forall i :: 0 <= i < |ts| ==> r[i] == TaskRow(ts[i])
  {
    seq(|ts|, i requires 0 <= i < |ts| => TaskRow(ts[i]))
  }

  function MemoRows(ms: seq<Memo>): (r: seq<string>)
    ensures |r| == |ms|
    ensures forall i :: 0 <= i < |ms| ==> r[i] == MemoRow(ms[i])
  {
    seq(|ms|, i requires 0 <= i < |ms| => MemoRow(ms[i]))
  }

  /** A task bullet is a single line when its shown fields are. */
  lemma TaskRowSingleLine(t: Task)
    requires SingleLineTask(t)
    ensures '\n' !in TaskRow(t)
  {
    assert '\n' !in DeadlineSuffix(t.deadline);
  }

  lemma TaskRowsSnoc(ts: seq<Task>)
    requires ts != []
    ensures TaskRows(ts) == TaskRows(ts[..|ts| - 1]) + [TaskRow(ts[|ts| - 1])]
  {
  }

  lemma {:induction false} SplitTaskLines(ts: seq<Task>, tail: string)
    requires forall i :: 0 <= i < |ts| ==> SingleLineTask(ts[i])
    ensures Split(TaskLines(ts) + tail) == TaskRows(ts) + Split(tail)
    decreases |ts|
  {
    if ts != [] {
      var init, t := ts[..|ts| - 1], ts[|ts| - 1];
      TaskRowSingleLine(t);
      SplitLine(TaskRow(t), tail);
      SplitTaskLines(init, TaskRow(t) + "\n" + tail);
      Assoc(TaskLines(init), TaskRow(t) + "\n", tail);
      TaskRowsSnoc(ts);
      Assoc(TaskRows(init), [TaskRow(t)], Split(tail));
    } else {
      assert TaskLines(ts) + tail == tail;
      assert TaskRows(ts) + Split(tail) == Split(tail);
    }
  }

  lemma {:induction false} SplitMemoLines(ms: seq<Memo>, tail: string)
    requires forall i :: 0 <= i < |ms| ==> SingleLineMemo(ms[i])
    ensures Split(MemoLines(ms) + tail) == MemoRows(ms) + Split(tail)
    decreases |ms|
  {
    if ms != [] {
      var init, m := ms[..|ms| - 1], ms[|ms| - 1];
      assert '\n' !in MemoRow(m) by { assert SingleLineMemo(m); }
      SplitLine(MemoRow(m), tail);
      SplitMemoLines(init, MemoRow(m) + "\n" + tail);
      Assoc(MemoLines(init), MemoRow(m) + "\n", tail);
      assert MemoRows(ms) == MemoRows(init) + [MemoRow(m)];
      Assoc(MemoRows(init), [MemoRow(m)], Split(tail));
    } else {
      assert MemoLines(ms) + tail == tail;
      assert MemoRows(ms) + Split(tail) == Split(tail);
    }
  }

  lemma HeadingsAreSingleLines()
    ensures '\n' !in TitleLine && '\n' !in TasksLine && '\n' !in MemosLine
  {
  }

  /** The lines of a title line, a blank line and a heading line, followed
      by any text. */
  lemma SplitHead(l1: string, l3: string, rest: string)
    requires '\n' !in l1 && '\n' !in l3
    ensures Split((l1 + "\n\n") + (l3 + "\n") + rest) == [l1, "", l3] + Split(rest)
  {
    var r3 := (l3 + "\n") + rest;
    SplitLine(l3, rest);
    assert Split("\n" + r3) == [""] + Split(r3) by { assert ("\n" + r3)[1..] == r3; }
    SplitLine(l1, "\n" + r3);
    assert "\n\n" == "\n" + "\n";
    Assoc(l1, "\n", "\n");
    Assoc(l1 + "\n", "\n", r3);
    Assoc(l1 + "\n\n", l3 + "\n", rest);
    assert [l1] + ([""] + ([l3] + Split(rest))) == [l1, "", l3] + Split(rest);
  }

  /** The lines of a blank line and a heading line, followed by any text. */
  lemma SplitSection(l: string, rest: string)
    requires '\n' !in l
    ensures Split("\n" + l + "\n" + rest) == ["", l] + Split(rest)
  {
    SplitLine(l, rest);
    SplitLine("", l + "\n" + rest);
    assert "\n" + l + "\n" + rest == "" + "\n" + (l + "\n" + rest);
  }

  /** The document's lines: the title, a blank line and the Tasks heading;
      one bullet per task in order; a blank line and the Memos heading; one
      bullet per memo in order; and the empty piece after the final break. */
  lemma DocumentLines(tasks: seq<Task>, memos: seq<Memo>)
    requires forall i :: 0 <= i < |tasks| ==> SingleLineTask(tasks[i])
    requires forall i :: 0 <= i < |memos| ==> SingleLineMemo(memos[i])
    ensures Split(Render(tasks, memos))
         == [TitleLine, "", TasksLine] + (TaskRows(tasks) + (["", MemosLine] + (MemoRows(memos) + [""])))
  {
    var t, m := TaskLines(tasks), MemoLines(memos);
    HeadingsAreSingleLines();
    Assoc(Title + TasksHeading + t, MemosHeading, m);
    Assoc(Title + TasksHeading, t, MemosHeading + m);
    SplitHead(TitleLine, TasksLine, t + (MemosHeading + m));
    SplitTaskLines(tasks, MemosHeading + m);
    SplitSection(MemosLine, m);
    SplitMemoLines(memos, "");
    assert m + "" == m;
  }

  /** With no tasks and no memos the document is the title and the two
      section headings, with no bullet at all. */
  lemma EmptyDocument()
    ensures Render([], []) == "# Brain Cleaner Results\n\n## ✅ Tasks\n\n## 💡 Memos\n"
  {
  }

  /** ... and its lines are those three headings and the blank lines. */
  lemma EmptyDocumentLines()
    ensures Split(Render([], [])) == [TitleLine, "", TasksLine, "", MemosLine, ""]
  {
    DocumentLines([], []);
    assert TaskRows([]) == [] && MemoRows([]) == [];
  }

  // ---------------------------------------------------------------------
  // Reading one bullet back
  // ---------------------------------------------------------------------

  /** What a task bullet shows: the category and action as printed, whether
      the high-priority glyph was chosen, and the deadline when one is shown. */
  datatype Bullet = Bullet(category: string, action: string, high: bool, deadline: Option<string>)

  /** What `TaskRow(t)` is meant to show of `t`. */
  function Shown(t: Task): Bullet
  {
    Bullet(PyStr(t.category), PyStr(t.action), t.priority == Some(HighPriority),
           if IsTruthy(t.deadline) then Some(t.deadline.value) else None)
  }

  /** The first index at or after `from` whose character is in `cs`. */
  function FindChar(s: string, cs: set<char>, from: nat): (r: Option<nat>)
    ensures r.Some? ==> from <= r.value < |s| && s[r.value] in cs
    decreases |s| - from
  {
    if from >= |s| then None
    else if s[from] in cs then Some(from)
    else FindChar(s, cs, from + 1)
  }

  lemma {:induction false} FindCharAt(s: string, cs: set<char>, from: nat, k: nat)
    requires from <= k < |s| && s[k] in cs
    requires forall j :: from <= j < k ==> s[j] !in cs
    ensures FindChar(s, cs, from) == Some(k)
    decreases k - from
  {
    if from < k {
      FindCharAt(s, cs, from + 1, k);
    }
  }

  function ParseDeadline(rest: string): Option<Option<string>>
  {
    if rest == "" then Some(None)
    else if |rest| >= 5 && rest[..4] == " (📅 " && rest[|rest| - 1] == ')' then
      Some(Some(rest[4..|rest| - 1]))
    else None
  }

  /** Reads a task bullet: "- [", the category up to the first ']', a space,
      the action up to the first priority glyph (less the space before it),
      the glyph, then nothing or a deadline suffix. */
  function ParseTaskRow(row: string): Option<Bullet>
  {
    if |row| < 3 || row[..3] != "- [" then None
    else match FindChar(row, {']'}, 3)
      case None => None
      case Some(k) =>
        if k + 1 >= |row| || row[k + 1] != ' ' then None
        else match FindChar(row, {HighIcon, NormalIcon}, k + 2)
          case None => None
          case Some(g) =>
            if g < k + 3 || row[g - 1] != ' ' then None
            else match ParseDeadline(row[g + 1..])
              case None => None
              case Some(d) => Some(Bullet(row[3..k], row[k + 2..g - 1], row[g] == HighIcon, d))
  }

  /** Where each piece of a task bullet sits. */
  lemma RowPieces(c: string, a: string, icon: char, d: string)
    ensures var row := "- [" + c + "] " + a + " " + [icon] + d;
      var k, g := 3 + |c|, 6 + |c| + |a|;
      && |row| == g + 1 + |d|
      && row[..3] == "- [" && row[3..k] == c && row[k] == ']' && row[k + 1] == ' '
      && row[k + 2..g - 1] == a && row[g - 1] == ' ' && row[g] == icon && row[g + 1..] == d
  {
  }

  /** The deadline suffix reads back as the deadline it shows, if any. */
  lemma DeadlineRoundTrip(deadline: Option<string>)
    ensures ParseDeadline(DeadlineSuffix(deadline)) == Some(if IsTruthy(deadline) then Some(deadline.value) else None)
  {
    if IsTruthy(deadline) {
      var d := DeadlineSuffix(deadline);
      assert d[..4] == " (📅 " && d[|d| - 1] == ')' && d[4..|d| - 1] == deadline.value;
    }
  }

  /** A task bullet reads back as what it is meant to show, provided the
      category holds no ']' and the action no priority glyph: the glyph is
      the high-priority one exactly when the priority is "High", and the
      deadline suffix is there exactly when the deadline is truthy. */
  lemma TaskRowRoundTrip(t: Task)
    requires ']' !in PyStr(t.category)
    requires HighIcon !in PyStr(t.action) && NormalIcon !in PyStr(t.action)
    ensures ParseTaskRow(TaskRow(t)) == Some(Shown(t))
  {
    var c, a := PyStr(t.category), PyStr(t.action);
    var icon, d := PriorityIcon(t.priority), DeadlineSuffix(t.deadline);
    var row := TaskRow(t);
    var k, g := 3 + |c|, 6 + |c| + |a|;
    RowPieces(c, a, icon, d);
    forall j | 3 <= j < k ensures row[j] !in {']'} {
      assert row[j] == row[3..k][j - 3];
    }
    FindCharAt(row, {']'}, 3, k);
    forall j | k + 2 <= j < g ensures row[j] !in {HighIcon, NormalIcon} {
      if j < g - 1 { assert row[j] == row[k + 2..g - 1][j - k - 2]; }
    }
    FindCharAt(row, {HighIcon, NormalIcon}, k + 2, g);
    DeadlineRoundTrip(t.deadline);
  }

  function ParseMemoRow(row: string): Option<string>
  {
    if |row| >= 2 && row[..2] == "- " then Some(row[2..]) else None
  }

  /** A memo bullet reads back as the memo's content as printed. */
  lemma MemoRowRoundTrip(m: Memo)
    ensures ParseMemoRow(MemoRow(m)) == Some(PyStr(m.content))
  {
    assert MemoRow(m)[2..] == PyStr(m.content);
  }
}
