/**
 * The course-structure editor: an ordered list of modules that the user edits
 * field by field, extends, shortens and reorders, plus the plain-text export
 * and the comma-separated editing of topic and objective lists.
 */
module CourseEditor {
  import opened Wrappers
  import opened Strings

  datatype Module = Module(
    number: int,
    title: string,
    description: string,
    objectives: seq<string>,
    topics: seq<string>,
    estimatedDuration: string)

  datatype CourseStructure = CourseStructure(
    courseTitle: string,
    courseDescription: string,
    targetAudience: string,
    prerequisites: string,
    estimatedDuration: string,
    modules: seq<Module>,
    learningOutcomes: seq<string>)

  /**
   * The page's two state cells: the structure being edited (absent until it
   * has been handed over) and the index of the module whose form is open.
   */
  datatype EditorState = EditorState(course: Option<CourseStructure>, editing: Option<int>)

  /** Every module's number is its position plus one. */
  predicate Numbered(ms: seq<Module>) {
    forall i :: 0 <= i < |ms| ==> ms[i].number == i + 1
  }

  /** Relabels every module with its position plus one. */
  function Renumbered(ms: seq<Module>): seq<Module> {
    seq(|ms|, i requires 0 <= i < |ms| => ms[i].(number := i + 1))
  }

  lemma RenumberedIsNumbered(ms: seq<Module>)
    ensures |Renumbered(ms)| == |ms| && Numbered(Renumbered(ms))
    ensures Numbered(ms) ==> Renumbered(ms) == ms
  {
  }

  // ---------------------------------------------------------------------
  // updateModule
  // ---------------------------------------------------------------------

  /** The keys of a module (`keyof Module`). */
  datatype Field = Number | Title | Description | Objectives | Topics | EstimatedDuration

  /** A field's value: a number, a text or a list of texts. */
  datatype Value = Num(n: int) | Text(s: string) | Items(xs: seq<string>)

  predicate FitsField(f: Field, v: Value) {
    match f
    case Number => v.Num?
    case Objectives | Topics => v.Items?
    case _ => v.Text?
  }

  function Get(m: Module, f: Field): (v: Value)
    ensures FitsField(f, v)
  {
    match f
    case Number => Num(m.number)
    case Title => Text(m.title)
    case Description => Text(m.description)
    case Objectives => Items(m.objectives)
    case Topics => Items(m.topics)
    case EstimatedDuration => Text(m.estimatedDuration)
  }

  /** `{ ...m, [f]: v }`: the module with field `f` replaced by `v` and every other field kept. */
  function Set(m: Module, f: Field, v: Value): (r: Module)
    requires FitsField(f, v)
    ensures forall g: Field :: Get(r, g) == (if g == f then v else Get(m, g))
  {
    match f
    case Number => m.(number := v.n)
    case Title => m.(title := v.s)
    case Description => m.(description := v.s)
    case Objectives => m.(objectives := v.xs)
    case Topics => m.(topics := v.xs)
    case EstimatedDuration => m.(estimatedDuration := v.s)
  }

  /**
   * `updateModule(index, field, value)`. The page only calls it with the index
   * of a module it is showing and a value of the field's type.
   */
  function UpdateModule(st: EditorState, index: int, f: Field, v: Value): (r: EditorState)
    requires st.course.Some? ==> 0 <= index < |st.course.value.modules|
    requires FitsField(f, v)
    ensures st.course.None? ==> r == st
    ensures st.course.Some? ==>
      var ms := st.course.value.modules;
      && r.course.Some?
      && r.editing == st.editing
      && r.course.value.(modules := ms) == st.course.value
      && |r.course.value.modules| == |ms|
      && (forall g: Field :: Get(r.course.value.modules[index], g)
            == if g == f then v else Get(ms[index], g))
      && (forall k :: 0 <= k < |ms| && k != index ==> r.course.value.modules[k] == ms[k])
  {
    match st.course
    case None => st
    case Some(cs) =>
      var ms := cs.modules;
      st.(course := Some(cs.(modules := ms[index := Set(ms[index], f, v)])))
  }

  /** Editing a text or list field keeps the numbering intact. */
  lemma UpdateKeepsNumbering(st: EditorState, index: int, f: Field, v: Value)
    requires st.course.Some? && 0 <= index < |st.course.value.modules|
    requires FitsField(f, v) && f != Number
    requires Numbered(st.course.value.modules)
    ensures Numbered(UpdateModule(st, index, f, v).course.value.modules)
  {
    var ms' := UpdateModule(st, index, f, v).course.value.modules;
    assert Get(ms'[index], Number) == Get(st.course.value.modules[index], Number);
  }

  // ---------------------------------------------------------------------
  // addModule
  // ---------------------------------------------------------------------

  /** The placeholder module `addModule` appends. */
  function Placeholder(number: int): Module {
    Module(number, "New Module", "Module description", ["Learning objective"], ["Topic 1"], "1-2 hours")
  }

  /** `addModule()`: appends a placeholder numbered one past the end and opens its form. */
  function AddModule(st: EditorState): (r: EditorState)
    ensures st.course.None? ==> r == st
    ensures st.course.Some? ==>
      var ms := st.course.value.modules;
      && r.course.Some?
      && r.course.value.(modules := ms) == st.course.value
      && |r.course.value.modules| == |ms| + 1
      && r.course.value.modules[..|ms|] == ms
      && r.course.value.modules[|ms|] == Placeholder(|ms| + 1)
      && r.editing == Some(|ms|)
  {
    match st.course
    case None => st
    case Some(cs) =>
      EditorState(Some(cs.(modules := cs.modules + [Placeholder(|cs.modules| + 1)])), Some(|cs.modules|))
  }

  lemma AddKeepsNumbering(st: EditorState)
    requires st.course.Some? && Numbered(st.course.value.modules)
    ensures Numbered(AddModule(st).course.value.modules)
  {
    var ms := st.course.value.modules;
    var ms' := AddModule(st).course.value.modules;
    forall i | 0 <= i < |ms'| ensures ms'[i].number == i + 1 {
      if i < |ms| { assert ms'[i] == ms'[..|ms|][i]; }
    }
  }

  // ---------------------------------------------------------------------
  // deleteModule
  // ---------------------------------------------------------------------

  /** `filter((_, i) => i !== index)`: drops position `index` when there is one. */
  function Without(ms: seq<Module>, index: int): seq<Module> {
    if 0 <= index < |ms| then ms[..index] + ms[index + 1..] else ms
  }

  /**
   * `deleteModule(index)`: refused while at most one module remains; otherwise
   * drops the module at `index`, renumbers the rest and closes the form.
   */
  function DeleteModule(st: EditorState, index: int): (r: EditorState)
    ensures st.course.None? || |st.course.value.modules| <= 1 ==> r == st
    ensures st.course.Some? && |st.course.value.modules| > 1 ==>
      var ms := st.course.value.modules;
      && r.course.Some?
      && r.course.value.(modules := ms) == st.course.value
      && r.editing.None?
      && var ms' := r.course.value.modules;
      && Numbered(ms')
      && |ms'| == (if 0 <= index < |ms| then |ms| - 1 else |ms|)
      && (forall k :: 0 <= k < |ms'| ==>
            ms'[k] == (if 0 <= index <= k then ms[k + 1] else ms[k]).(number := k + 1))
  {
    match st.course
    case None => st
    case Some(cs) =>
      if |cs.modules| <= 1 then st
      else EditorState(Some(cs.(modules := Renumbered(Without(cs.modules, index)))), None)
  }

  /** Deleting from a numbered list keeps every survivor's content and their order. */
  lemma DeleteSurvivors(st: EditorState, index: int)
    requires st.course.Some? && Numbered(st.course.value.modules)
    requires |st.course.value.modules| > 1 && 0 <= index < |st.course.value.modules|
    ensures
      var ms := st.course.value.modules;
      var ms' := DeleteModule(st, index).course.value.modules;
      && |ms'| == |ms| - 1
      && (forall k :: 0 <= k < index ==> ms'[k] == ms[k])
      && (forall k :: index <= k < |ms'| ==> ms'[k] == ms[k + 1].(number := k + 1))
  {
  }

  // ---------------------------------------------------------------------
  // moveModule
  // ---------------------------------------------------------------------

  datatype Direction = Up | Down

  function Target(index: int, dir: Direction): int {
    if dir == Up then index - 1 else index + 1
  }

  /** The list with positions `i` and `j` exchanged. */
  function Swapped(ms: seq<Module>, i: int, j: int): seq<Module>
    requires 0 <= i < |ms| && 0 <= j < |ms|
  {
    ms[i := ms[j]][j := ms[i]]
  }

  /** What `moveModule(index, dir)` leaves in the page's state. */
  function Moved(st: EditorState, index: int, dir: Direction): (r: EditorState)
    requires st.course.Some? ==> 0 <= index < |st.course.value.modules|
  {
    match st.course
    case None => st
    case Some(cs) =>
      var j := Target(index, dir);
      if j < 0 || j >= |cs.modules| then st
      else EditorState(Some(cs.(modules := Renumbered(Swapped(cs.modules, index, j)))), Some(j))
  }

  /** At the boundaries (up from the first, down from the last) nothing changes. */
  lemma MoveAtBoundary(st: EditorState, index: int, dir: Direction)
    requires st.course.Some? && 0 <= index < |st.course.value.modules|
    requires dir == Up ==> index == 0
    requires dir == Down ==> index == |st.course.value.modules| - 1
    ensures Moved(st, index, dir) == st
  {
  }

  /**
   * Inside the list, the two modules exchange places and take their new
   * positions' numbers; every other module is relabelled with its position,
   * and the form of the moved module stays open.
   */
  lemma MoveSwapsTwo(st: EditorState, index: int, dir: Direction)
    requires st.course.Some? && 0 <= index < |st.course.value.modules|
    requires 0 <= Target(index, dir) < |st.course.value.modules|
    ensures
      var ms := st.course.value.modules;
      var j := Target(index, dir);
      var r := Moved(st, index, dir);
      && r.course.Some? && r.course.value.(modules := ms) == st.course.value
      && r.editing == Some(j)
      && |r.course.value.modules| == |ms|
      && Numbered(r.course.value.modules)
      && r.course.value.modules[j] == ms[index].(number := j + 1)
      && r.course.value.modules[index] == ms[j].(number := index + 1)
      && (forall k :: 0 <= k < |ms| && k != index && k != j ==>
            r.course.value.modules[k] == ms[k].(number := k + 1))
  {
  }

  /** Moving a module down and then back up restores a numbered structure. */
  lemma MoveDownThenUp(st: EditorState, index: int)
    requires st.course.Some? && Numbered(st.course.value.modules)
    requires 0 <= index && index + 1 < |st.course.value.modules|
    ensures
      var once := Moved(st, index, Down);
      && once.course.Some? && once.editing == Some(index + 1)
      && Moved(once, index + 1, Up).course == st.course
  {
    var ms := st.course.value.modules;
    var once := Moved(st, index, Down);
    var twice := Moved(once, index + 1, Up);
    var ms2 := twice.course.value.modules;
    assert |ms2| == |ms|;
    forall k | 0 <= k < |ms| ensures ms2[k] == ms[k] {
    }
    assert ms2 == ms;
  }

  /**
   * `moveModule(index, dir)`: copies the list into an array, exchanges the two
   * slots, then renumbers every slot in place.
   */
  method MoveModule(st: EditorState, index: int, dir: Direction) returns (r: EditorState)
    requires st.course.Some? ==> 0 <= index < |st.course.value.modules|
    ensures r == Moved(st, index, dir)
  {
    if st.course.None? {
      return st;
    }
    var cs := st.course.value;
    var n := |cs.modules|;
    var newIndex := if dir == Up then index - 1 else index + 1;
    if newIndex < 0 || newIndex >= n {
      return st;
    }
    var a := new Module[n](i requires 0 <= i < n => cs.modules[i]);
    a[index], a[newIndex] := a[newIndex], a[index];
    ghost var swapped := a[..];
    assert swapped == Swapped(cs.modules, index, newIndex);
    for i := 0 to n
      invariant forall k :: 0 <= k < i ==> a[k] == swapped[k].(number := k + 1)
      invariant forall k :: i <= k < n ==> a[k] == swapped[k]
    {
      a[i] := a[i].(number := i + 1);
    }
    assert a[..] == Renumbered(swapped);
    r := EditorState(Some(cs.(modules := a[..])), Some(newIndex));
  }

  // ---------------------------------------------------------------------
  // exportToTxt
  // ---------------------------------------------------------------------

  function DigitChar(d: nat): char
    requires d < 10
  {
    ('0' as int + d) as char
  }

  /** The decimal text of a whole number, as JavaScript prints it. */
  function NatToString(n: nat): string
    decreases n
  {
    if n < 10 then [DigitChar(n)] else NatToString(n / 10) + [DigitChar(n % 10)]
  }

  function IntToString(i: int): string
    decreases if i < 0 then 1 else 0
  {
    if i < 0 then "-" + IntToString(-i) else NatToString(i)
  }

  const Separator: string := "==========================================="

  /** Each line followed by a newline. */
  function Unlines(lines: seq<string>): string
    decreases |lines|
  {
    if lines == [] then [] else lines[0] + "\n" + Unlines(lines[1..])
  }

  lemma {:induction false} UnlinesAppend(a: seq<string>, b: seq<string>)
    ensures Unlines(a + b) == Unlines(a) + Unlines(b)
    decreases |a|
  {
    if a != [] {
      assert (a + b)[0] == a[0];
      assert (a + b)[1..] == a[1..] + b;
      UnlinesAppend(a[1..], b);
    } else {
      assert a + b == b;
    }
  }

  function HeaderLines(cs: CourseStructure): seq<string> {
    ["Course: " + cs.courseTitle, "Description: " + cs.courseDescription, "", Separator, ""]
  }

  /** The lines one module contributes; a list line only when the list is non-empty. */
  function ModuleLines(m: Module): seq<string> {
    ["Module " + IntToString(m.number) + ": " + m.title, "Description: " + m.description]
    + (if |m.objectives| > 0 then ["Objectives: " + Join(m.objectives, ", ")] else [])
    + (if |m.topics| > 0 then ["Topics: " + Join(m.topics, ", ")] else [])
    + ["Duration: " + m.estimatedDuration, ""]
  }

  function ModulesLines(ms: seq<Module>): seq<string>
    decreases |ms|
  {
    if ms == [] then [] else ModuleLines(ms[0]) + ModulesLines(ms[1..])
  }

  lemma {:induction false} ModulesLinesSnoc(ms: seq<Module>, m: Module)
    ensures ModulesLines(ms + [m]) == ModulesLines(ms) + ModuleLines(m)
    decreases |ms|
  {
    if ms == [] {
      assert [m][1..] == [];
    } else {
      assert (ms + [m])[1..] == ms[1..] + [m];
      ModulesLinesSnoc(ms[1..], m);
    }
  }

  /** The export, line by line: the header, then each module's lines in order. */
  function ExportLines(cs: CourseStructure): seq<string> {
    HeaderLines(cs) + ModulesLines(cs.modules)
  }

  lemma HeaderText(cs: CourseStructure)
    ensures Unlines(HeaderLines(cs)) == "Course: " + cs.courseTitle + "\n" + "Description: "
      + cs.courseDescription + "\n\n" + Separator + "\n\n"
  {
    var h := HeaderLines(cs);
    assert h[4..][1..] == [];
    assert Unlines(h[4..]) == "\n";
    assert h[3..][1..] == h[4..];
    assert Unlines(h[3..]) == Separator + "\n\n";
    assert h[2..][1..] == h[3..];
    assert Unlines(h[2..]) == "\n" + Separator + "\n\n";
    assert h[1..][1..] == h[2..];
    assert Unlines(h[1..]) == "Description: " + cs.courseDescription + "\n\n" + Separator + "\n\n";
  }

  /** `Course:` and `Description:` headers, a blank line, the separator and a blank line open the text. */
  lemma ExportHeader(cs: CourseStructure)
    ensures StartsWith(Unlines(ExportLines(cs)),
      "Course: " + cs.courseTitle + "\n" + "Description: " + cs.courseDescription + "\n\n"
      + Separator + "\n\n")
  {
    UnlinesAppend(HeaderLines(cs), ModulesLines(cs.modules));
    HeaderText(cs);
  }

  /**
   * Position `k` of the module lines holds the block of module `k`: the
   * module lines are the blocks of the modules, concatenated in list order.
   */
  lemma {:induction false} ModulesLinesSplit(ms: seq<Module>, k: nat)
    requires k < |ms|
    ensures ModulesLines(ms) == ModulesLines(ms[..k]) + ModuleLines(ms[k]) + ModulesLines(ms[k + 1..])
    decreases |ms|
  {
    if k > 0 {
      ModulesLinesSplit(ms[1..], k - 1);
      assert ms[1..][..k - 1] == ms[..k][1..];
      assert ms[1..][k - 1] == ms[k];
      assert ms[1..][k..] == ms[k + 1..];
      var head, before := ModuleLines(ms[0]), ModulesLines(ms[..k][1..]);
      var at, after := ModuleLines(ms[k]), ModulesLines(ms[k + 1..]);
      assert ModulesLines(ms[..k]) == head + before;
      AppendAssoc(head, before + at, after);
      AppendAssoc(head, before, at);
    } else {
      assert ms[..0] == [];
      assert ms[1..] == ms[k + 1..];
    }
  }

  /** A module's block has an `Objectives:` line, and a `Topics:` line, exactly when that list is non-empty. */
  lemma ListLinesPresent(m: Module)
    ensures (exists i :: 0 <= i < |ModuleLines(m)| && StartsWith(ModuleLines(m)[i], "Objectives: "))
            <==> |m.objectives| > 0
    ensures (exists i :: 0 <= i < |ModuleLines(m)| && StartsWith(ModuleLines(m)[i], "Topics: "))
            <==> |m.topics| > 0
  {
    var lines := ModuleLines(m);
    var o := if |m.objectives| > 0 then ["Objectives: " + Join(m.objectives, ", ")] else [];
    var t := if |m.topics| > 0 then ["Topics: " + Join(m.topics, ", ")] else [];
    var head := ["Module " + IntToString(m.number) + ": " + m.title, "Description: " + m.description];
    var tail := ["Duration: " + m.estimatedDuration, ""];
    assert lines == head + o + t + tail;
    forall i | 0 <= i < |lines|
      ensures StartsWith(lines[i], "Objectives: ") <==> |o| == 1 && i == 2
      ensures StartsWith(lines[i], "Topics: ") <==> |t| == 1 && i == 2 + |o|
    {
      if i < 2 {
        assert lines[i] == head[i];
        assert lines[i][0] == 'M' || lines[i][0] == 'D';
      } else if i < 2 + |o| {
        assert lines[i] == o[0];
        assert lines[i][0] == 'O';
      } else if i < 2 + |o| + |t| {
        assert lines[i] == t[0];
        assert lines[i][0] == 'T';
      } else {
        assert lines[i] == tail[i - 2 - |o| - |t|];
        assert lines[i] == [] || lines[i][0] == 'D';
      }
    }
    if |m.objectives| > 0 { assert StartsWith(lines[2], "Objectives: "); }
    if |m.topics| > 0 { assert StartsWith(lines[2 + |o|], "Topics: "); }
  }

  /** The file name is the title with every non-alphanumeric ASCII character replaced by `_`. */
  predicate IsAsciiAlphanumeric(c: char) {
    ('a' <= c <= 'z') || ('A' <= c <= 'Z') || ('0' <= c <= '9')
  }

  /** `title.replace(/[^a-z0-9]/gi, '_')`. */
  function Sanitize(title: string): (r: string)
    ensures |r| == |title|
    ensures forall k :: 0 <= k < |r| ==>
      r[k] == (if IsAsciiAlphanumeric(title[k]) then title[k] else '_')
    decreases |title|
  {
    if title == [] then []
    else [if IsAsciiAlphanumeric(title[0]) then title[0] else '_'] + Sanitize(title[1..])
  }

  function ExportFileName(cs: CourseStructure): string {
    Sanitize(cs.courseTitle) + "_modules.txt"
  }

  /** The file name is as long as the title plus the suffix, and has only safe characters. */
  lemma FileNameShape(cs: CourseStructure)
    ensures var name := ExportFileName(cs);
      && |name| == |cs.courseTitle| + |"_modules.txt"|
      && EndsWith(name, "_modules.txt")
      && forall k :: 0 <= k < |cs.courseTitle| ==> IsAsciiAlphanumeric(name[k]) || name[k] == '_'
  {
    var s := Sanitize(cs.courseTitle);
    assert ExportFileName(cs)[|s|..] == "_modules.txt";
    forall k | 0 <= k < |cs.courseTitle|
      ensures IsAsciiAlphanumeric(ExportFileName(cs)[k]) || ExportFileName(cs)[k] == '_'
    {
      assert ExportFileName(cs)[k] == s[k];
    }
  }

  lemma UnlinesOne(x: string)
    ensures Unlines([x]) == x + "\n"
  {
    assert [x][1..] == [];
  }

  /** Appending `line` and a newline extends the text by one more line. */
  lemma AppendLine(text: string, prefix: string, lines: seq<string>, line: string)
    requires text == prefix + Unlines(lines)
    ensures text + line + "\n" == prefix + Unlines(lines + [line])
  {
    UnlinesAppend(lines, [line]);
    UnlinesOne(line);
  }

  /** The body of the `forEach` callback: appends one module's lines. */
  method AppendModule(content: string, m: Module) returns (c: string)
    ensures c == content + Unlines(ModuleLines(m))
  {
    ghost var lines: seq<string> := [];
    c := content;
    AppendLine(c, content, lines, "Module " + IntToString(m.number) + ": " + m.title);
    c, lines := c + ("Module " + IntToString(m.number) + ": " + m.title) + "\n",
      lines + ["Module " + IntToString(m.number) + ": " + m.title];
    AppendLine(c, content, lines, "Description: " + m.description);
    c, lines := c + ("Description: " + m.description) + "\n", lines + ["Description: " + m.description];
    if |m.objectives| > 0 {
      AppendLine(c, content, lines, "Objectives: " + Join(m.objectives, ", "));
      c, lines := c + ("Objectives: " + Join(m.objectives, ", ")) + "\n",
        lines + ["Objectives: " + Join(m.objectives, ", ")];
    }
    if |m.topics| > 0 {
      AppendLine(c, content, lines, "Topics: " + Join(m.topics, ", "));
      c, lines := c + ("Topics: " + Join(m.topics, ", ")) + "\n", lines + ["Topics: " + Join(m.topics, ", ")];
    }
    AppendLine(c, content, lines, "Duration: " + m.estimatedDuration);
    c, lines := c + ("Duration: " + m.estimatedDuration) + "\n", lines + ["Duration: " + m.estimatedDuration];
    AppendLine(c, content, lines, "");
    c, lines := c + "" + "\n", lines + [""];
    assert lines == ModuleLines(m);
  }

  /** The text of the modules' lines, built from the back: the shape the export loop appends in. */
  function ModulesText(ms: seq<Module>): string
    decreases |ms|
  {
    if ms == [] then [] else ModulesText(ms[..|ms| - 1]) + Unlines(ModuleLines(ms[|ms| - 1]))
  }

  /** Built from the back, the text is the newline-terminated module lines. */
  lemma {:induction false} ModulesTextIsUnlines(ms: seq<Module>)
    ensures ModulesText(ms) == Unlines(ModulesLines(ms))
    decreases |ms|
  {
    if ms != [] {
      var init, last := ms[..|ms| - 1], ms[|ms| - 1];
      assert ms == init + [last];
      ModulesTextIsUnlines(init);
      ModulesLinesSnoc(init, last);
      UnlinesAppend(ModulesLines(init), ModuleLines(last));
    }
  }

  datatype Download = Download(content: string, fileName: string)

  /** The `forEach` over the modules: appends each module's lines, in order, after `header`. */
  method AppendModules(header: string, ms: seq<Module>) returns (content: string)
    ensures content == header + Unlines(ModulesLines(ms))
  {
    content := header;
    for i := 0 to |ms|
      invariant content == header + ModulesText(ms[..i])
    {
      AppendAssoc(header, ModulesText(ms[..i]), Unlines(ModuleLines(ms[i])));
      content := AppendModule(content, ms[i]);
      assert ms[..i + 1][..i] == ms[..i];
    }
    assert ms[..|ms|] == ms;
    ModulesTextIsUnlines(ms);
  }

  /**
   * `exportToTxt()`: appends the header and then each module's lines to one
   * text, and names the file after the course title. Nothing happens while
   * no structure has arrived.
   */
  method ExportToTxt(st: EditorState) returns (d: Option<Download>)
    ensures st.course.None? ==> d.None?
    ensures st.course.Some? ==>
      d == Some(Download(Unlines(ExportLines(st.course.value)), ExportFileName(st.course.value)))
  {
    if st.course.None? {
      return None;
    }
    var cs := st.course.value;
    var content := "Course: " + cs.courseTitle + "\n";
    content := content + "Description: " + cs.courseDescription + "\n\n";
    content := content + Separator + "\n\n";
    HeaderText(cs);
    content := AppendModules(content, cs.modules);
    UnlinesAppend(HeaderLines(cs), ModulesLines(cs.modules));
    d := Some(Download(content, Sanitize(cs.courseTitle) + "_modules.txt"));
  }

  // ---------------------------------------------------------------------
  // Comma-separated list editing
  // ---------------------------------------------------------------------

  /** `.map((t) => t.trim()).filter((t) => t)`. */
  function TrimAndDropEmpty(pieces: seq<string>): (r: seq<string>)
    ensures forall k :: 0 <= k < |r| ==> r[k] != [] && IsTrimmed(r[k])
    decreases |pieces|
  {
    if pieces == [] then []
    else
      var t := Trim(pieces[0]);
      if t == [] then TrimAndDropEmpty(pieces[1..]) else [t] + TrimAndDropEmpty(pieces[1..])
  }

  /** `value.split(',').map((t) => t.trim()).filter((t) => t)`: what the topics and objectives inputs store. */
  function EditList(text: string): (r: seq<string>)
    ensures forall k :: 0 <= k < |r| ==> r[k] != [] && IsTrimmed(r[k]) && ',' !in r[k]
  {
    var pieces := Split(text, ',');
    CommaFreeSurvives(pieces);
    TrimAndDropEmpty(pieces)
  }

  lemma {:induction false} CommaFreeSurvives(pieces: seq<string>)
    requires forall k :: 0 <= k < |pieces| ==> ',' !in pieces[k]
    ensures forall k :: 0 <= k < |TrimAndDropEmpty(pieces)| ==> ',' !in TrimAndDropEmpty(pieces)[k]
    decreases |pieces|
  {
    if pieces != [] {
      CommaFreeSurvives(pieces[1..]);
      TrimWithin(pieces[0]);
    }
  }

  /** What `trim` returns is a stretch of its input. */
  lemma TrimWithin(s: string)
    ensures forall c :: c in Trim(s) ==> c in s
  {
    var i := LeadingWhitespace(s);
    if i < |s| {
      var j := TrailingWhitespace(s);
      forall c | c in Trim(s) ensures c in s {
        var k :| 0 <= k < |Trim(s)| && Trim(s)[k] == c;
        assert s[i + k] == c;
      }
    }
  }

  /** The pieces of `xs.join(", ")` split at `,`: every item after the first keeps the leading space. */
  lemma {:induction false} JoinCommaSpace(xs: seq<string>)
    requires |xs| >= 1
    ensures Join(xs, ", ") == Join([xs[0]] + SpacePrefixed(xs[1..]), [','])
    decreases |xs|
  {
    if |xs| > 1 {
      JoinCommaSpace(xs[1..]);
      var ys := [xs[1]] + SpacePrefixed(xs[2..]);
      assert xs[1..][1..] == xs[2..];
      assert SpacePrefixed(xs[1..]) == [" " + xs[1]] + SpacePrefixed(xs[2..]);
      var zs := [xs[0]] + SpacePrefixed(xs[1..]);
      assert zs[1..] == SpacePrefixed(xs[1..]);
      assert Join(zs[1..], [',']) == " " + Join(ys, [',']) by {
        JoinLeadingSpace(xs[1], SpacePrefixed(xs[2..]));
      }
    }
  }

  function SpacePrefixed(xs: seq<string>): (r: seq<string>)
    decreases |xs|
  {
    if xs == [] then [] else [" " + xs[0]] + SpacePrefixed(xs[1..])
  }

  lemma JoinLeadingSpace(x: string, rest: seq<string>)
    ensures Join([" " + x] + rest, [',']) == " " + Join([x] + rest, [','])
  {
    if rest != [] {
      assert ([" " + x] + rest)[1..] == rest;
      assert ([x] + rest)[1..] == rest;
    }
  }

  /**
   * The input shows `topics.join(', ')`; splitting that text again returns the
   * same list whenever its items are non-empty, trimmed and free of commas.
   */
  lemma {:induction false} EditListRoundTrip(xs: seq<string>)
    requires forall k :: 0 <= k < |xs| ==> xs[k] != [] && IsTrimmed(xs[k]) && ',' !in xs[k]
    ensures EditList(Join(xs, ", ")) == xs
  {
    if xs == [] {
      assert Split([], ',') == [[]];
    } else {
      var pieces := [xs[0]] + SpacePrefixed(xs[1..]);
      JoinCommaSpace(xs);
      SpacePrefixedCommaFree(xs[1..]);
      SplitJoin(pieces, ',');
      TrimPieces(xs);
    }
  }

  lemma {:induction false} SpacePrefixedCommaFree(xs: seq<string>)
    requires forall k :: 0 <= k < |xs| ==> ',' !in xs[k]
    ensures |SpacePrefixed(xs)| == |xs|
    ensures forall k :: 0 <= k < |xs| ==> SpacePrefixed(xs)[k] == " " + xs[k] && ',' !in SpacePrefixed(xs)[k]
    decreases |xs|
  {
    if xs != [] {
      SpacePrefixedCommaFree(xs[1..]);
    }
  }

  lemma {:induction false} TrimPieces(xs: seq<string>)
    requires |xs| >= 1
    requires forall k :: 0 <= k < |xs| ==> xs[k] != [] && IsTrimmed(xs[k]) && ',' !in xs[k]
    ensures TrimAndDropEmpty([xs[0]] + SpacePrefixed(xs[1..])) == xs
    decreases |xs|
  {
    var pieces := [xs[0]] + SpacePrefixed(xs[1..]);
    TrimOfTrimmed(xs[0]);
    assert pieces[1..] == SpacePrefixed(xs[1..]);
    if |xs| > 1 {
      TrimPieces(xs[1..]);
      assert xs[1..][1..] == xs[2..];
      TrimPadded(" ", xs[1], []);
      assert " " + xs[1] + [] == " " + xs[1];
      assert SpacePrefixed(xs[1..]) == [" " + xs[1]] + SpacePrefixed(xs[2..]);
      assert TrimAndDropEmpty(SpacePrefixed(xs[1..])) == TrimAndDropEmpty([xs[1]] + SpacePrefixed(xs[1..][1..]));
    } else {
      assert pieces == [xs[0]];
    }
  }

  /** The `Topics:` line of the export, read back through the list-editing rule, gives the topics. */
  lemma ExportedTopicsReadBack(m: Module)
    requires |m.topics| > 0
    requires forall k :: 0 <= k < |m.topics| ==> m.topics[k] != [] && IsTrimmed(m.topics[k]) && ',' !in m.topics[k]
    ensures var line := "Topics: " + Join(m.topics, ", ");
      && line in ModuleLines(m)
      && EditList(line[|"Topics: "|..]) == m.topics
  {
    var line := "Topics: " + Join(m.topics, ", ");
    assert line[|"Topics: "|..] == Join(m.topics, ", ");
    EditListRoundTrip(m.topics);
    var o := if |m.objectives| > 0 then ["Objectives: " + Join(m.objectives, ", ")] else [];
    assert ModuleLines(m)[2 + |o|] == line;
  }
}
