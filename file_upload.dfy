/**
 * The file-import page: it accepts one `.txt` outline, guesses the course
 * title from a `Course: ...` (or `Curso: ...`) first line, and posts the
 * text with the title to the parser. Reading the file and the parse request
 * are parameters: their outcomes arrive as values.
 */
module FileUpload {
  import opened Wrappers
  import opened Strings

  // ---------------------------------------------------------------------
  // The first line
  // ---------------------------------------------------------------------

  /** `content.split('\n')[0]`: everything before the first newline. */
  function FirstLine(content: string): (r: string)
    ensures StartsWith(content, r) && '\n' !in r
    ensures |r| < |content| ==> content[|r|] == '\n'
  {
    var pieces := Split(content, '\n');
    if |pieces| > 1 then
      assert content == pieces[0] + "\n" + Join(pieces[1..], "\n");
      pieces[0]
    else
      pieces[0]
  }

  // ---------------------------------------------------------------------
  // The title pattern /^(?:Course|Curso)\s*[:\-]\s*(.+)$/i
  // ---------------------------------------------------------------------

  /** ASCII case folding, which is all the case-insensitive pattern does to these letters. */
  function Lower(c: char): char {
    if 'A' <= c <= 'Z' then (c as int + 32) as char else c
  }

  /** `s` starts with `word` up to ASCII case. */
  predicate StartsWithIgnoringCase(s: string, word: string) {
    |word| <= |s| && forall i :: 0 <= i < |word| ==> Lower(s[i]) == Lower(word[i])
  }

  /** The length of the keyword that opens `line`: `Course` is tried first, then `Curso`. */
  function KeywordLength(line: string): (k: nat)
    ensures k == 0 || k == 5 || k == 6
    ensures k == 6 <==> StartsWithIgnoringCase(line, "Course")
    ensures k == 5 <==> StartsWithIgnoringCase(line, "Curso")
  {
    if StartsWithIgnoringCase(line, "Course") then 6
    else if StartsWithIgnoringCase(line, "Curso") then
      assert Lower(line[1]) == 'u';
      5
    else 0
  }

  /** `s[i..j]` is all whitespace. */
  ghost predicate WhitespaceBetween(s: string, i: nat, j: nat)
    requires i <= j <= |s|
  {
    forall t :: i <= t < j ==> IsWhitespace(s[t])
  }

  /** No line terminator from index `i` to the end. */
  ghost predicate NoTerminatorFrom(s: string, i: nat)
    requires i <= |s|
  {
    forall t :: i <= t < |s| ==> !IsLineTerminator(s[t])
  }

  /** The end of the whitespace run that starts at `i`. */
  function SkipWhitespace(s: string, i: nat): (j: nat)
    requires i <= |s|
    ensures i <= j <= |s| && WhitespaceBetween(s, i, j)
    ensures j < |s| ==> !IsWhitespace(s[j])
    decreases |s| - i
  {
    if i < |s| && IsWhitespace(s[i]) then SkipWhitespace(s, i + 1) else i
  }

  /** Where the text after the last line terminator at or after `i` begins (`i` when there is none). */
  function AfterLastTerminator(s: string, i: nat): (n: nat)
    requires i <= |s|
    ensures i <= n <= |s| && NoTerminatorFrom(s, n)
    ensures n > i ==> IsLineTerminator(s[n - 1])
    decreases |s| - i
  {
    if i == |s| then i
    else
      var n := AfterLastTerminator(s, i + 1);
      if n > i + 1 then n
      else if IsLineTerminator(s[i]) then i + 1
      else i
  }

  /**
   * One way the pattern can match `line`: a keyword of length `k`, the
   * whitespace up to the separator at `sep`, whitespace up to `cap`, and a
   * captured group `line[cap..]` of at least one character with no line
   * terminator, reaching the end.
   */
  ghost predicate Decomposition(line: string, k: nat, sep: nat, cap: nat) {
    && ((k == 6 && StartsWithIgnoringCase(line, "Course")) || (k == 5 && StartsWithIgnoringCase(line, "Curso")))
    && k <= sep < cap < |line|
    && WhitespaceBetween(line, k, sep) && (line[sep] == ':' || line[sep] == '-')
    && WhitespaceBetween(line, sep + 1, cap) && NoTerminatorFrom(line, cap)
  }

  /**
   * Where the captured group of a match begins, or nothing. Backtracking
   * settles each `\s*` greedily: the first takes the whole run before the
   * separator, the second as much as still leaves a character for the group.
   */
  function CaptureStart(line: string): (r: Option<nat>)
    ensures r.Some? ==> r.value < |line|
  {
    var k := KeywordLength(line);
    if k == 0 then None
    else
      var sep := SkipWhitespace(line, k);
      if sep < |line| && (line[sep] == ':' || line[sep] == '-') then
        var lw := SkipWhitespace(line, sep + 1);
        var j := AfterLastTerminator(line, sep + 1);
        if j <= lw && j < |line| then Some(if lw < |line| then lw else |line| - 1)
        else None
      else None
  }

  /**
   * `line.match(...)`: the captured group, or nothing. The pattern matches
   * exactly when the line has a decomposition, and the group is then a
   * non-empty tail of the line that one of its decompositions captures.
   */
  function MatchCourseLine(line: string): (r: Option<string>)
    ensures r.Some? <==> exists k: nat, sep: nat, cap: nat :: Decomposition(line, k, sep, cap)
    ensures r.Some? ==>
      && 0 < |r.value| <= |line| && r.value == line[|line| - |r.value|..]
      && var start := |line| - |r.value|; exists k: nat, sep: nat :: Decomposition(line, k, sep, start)
  {
    assert forall k: nat, sep: nat, cap: nat :: Decomposition(line, k, sep, cap) ==> CaptureStart(line).Some? by {
      forall k: nat, sep: nat, cap: nat | Decomposition(line, k, sep, cap)
        ensures CaptureStart(line).Some?
      {
        MatchComplete(line, k, sep, cap);
      }
    }
    match CaptureStart(line)
    case Some(cap) =>
      MatchSound(line);
      Some(line[cap..])
    case None => None
  }

  /** Every match the matcher reports comes from a decomposition of the line. */
  lemma MatchSound(line: string)
    requires CaptureStart(line).Some?
    ensures exists k: nat, sep: nat :: Decomposition(line, k, sep, CaptureStart(line).value)
  {
    var k := KeywordLength(line);
    var sep := SkipWhitespace(line, k);
    assert Decomposition(line, k, sep, CaptureStart(line).value);
  }

  /**
   * Every decomposition makes the matcher succeed, with the group starting
   * no earlier than the decomposition's: the greedy choice. The separator
   * the matcher uses is the decomposition's.
   */
  lemma MatchComplete(line: string, k: nat, sep: nat, cap: nat)
    requires Decomposition(line, k, sep, cap)
    ensures CaptureStart(line).Some? && CaptureStart(line).value >= cap
    ensures SkipWhitespace(line, KeywordLength(line)) == sep
  {
    assert KeywordLength(line) == k by {
      if k == 5 {
        assert Lower(line[1]) == 'u';
      }
    }
    var s := SkipWhitespace(line, k);
    assert !IsWhitespace(line[sep]);
    assert s == sep;
    var lw := SkipWhitespace(line, sep + 1);
    assert cap <= lw;
    var j := AfterLastTerminator(line, sep + 1);
    assert j <= cap;
  }

  /** Skipping a whitespace run at the front of a suffix does not change its trimmed text. */
  lemma TrimAfterWhitespace(line: string, i: nat, c: nat)
    requires i <= c <= |line| && WhitespaceBetween(line, i, c)
    ensures Trim(line[c..]) == Trim(line[i..])
  {
    var after := line[i..];
    forall k | 0 <= k < c - i ensures IsWhitespace(after[k]) {
      assert after[k] == line[i + k];
    }
    TrimDropWhitespace(after, c - i);
    assert after[c - i..] == line[c..];
  }

  /**
   * Whichever decomposition is considered, the title the page takes from the
   * match, the trimmed group, is the trimmed text after the separator.
   */
  lemma MatchTitle(line: string, k: nat, sep: nat, cap: nat)
    requires Decomposition(line, k, sep, cap)
    ensures MatchCourseLine(line).Some?
    ensures Trim(MatchCourseLine(line).value) == Trim(line[sep + 1..])
  {
    MatchComplete(line, k, sep, cap);
    var c := CaptureStart(line).value;
    var lw := SkipWhitespace(line, sep + 1);
    assert sep + 1 <= c <= lw;
    TrimAfterWhitespace(line, sep + 1, c);
  }

  /** A line that ends in a line terminator, like the first line of a CRLF file, never yields a title. */
  lemma TrailingTerminatorNoMatch(line: string)
    requires |line| > 0 && IsLineTerminator(line[|line| - 1])
    ensures MatchCourseLine(line).None?
    ensures forall k: nat, sep: nat, cap: nat :: !Decomposition(line, k, sep, cap)
  {
    forall k: nat, sep: nat, cap: nat | Decomposition(line, k, sep, cap) ensures false {
    }
    if CaptureStart(line).Some? {
      MatchSound(line);
    }
  }

  /** The title after reading `content`: the trimmed group of a matching first line, else `current`. */
  function ExtractedTitle(content: string, current: string): (r: string)
    ensures MatchCourseLine(FirstLine(content)).None? ==> r == current
    ensures MatchCourseLine(FirstLine(content)).Some? ==> r == Trim(MatchCourseLine(FirstLine(content)).value)
  {
    match MatchCourseLine(FirstLine(content))
    case Some(group) => Trim(group)
    case None => current
  }

  /** A file with Windows line endings keeps the title it had: its first line ends in a carriage return. */
  lemma CrlfKeepsTitle(first: string, rest: string, current: string)
    requires '\n' !in first
    ensures ExtractedTitle(first + "\r\n" + rest, current) == current
  {
    var content := first + "\r\n" + rest;
    var line := FirstLine(content);
    assert content[|first|] == '\r' && content[|first| + 1] == '\n';
    assert line == first + "\r";
    TrailingTerminatorNoMatch(line);
  }

  /** The title sent with the parse request: the trimmed title, or a fixed one when that is empty. */
  function SubmittedTitle(title: string): (r: string)
    ensures r != [] && IsTrimmed(r)
    ensures !AllWhitespace(title) ==> r == Trim(title)
    ensures AllWhitespace(title) ==> r == "Imported Course"
  {
    var t := Trim(title);
    if t != [] then t else "Imported Course"
  }

  // ---------------------------------------------------------------------
  // The page
  // ---------------------------------------------------------------------

  /** What the file reader delivers. */
  datatype ReadOutcome = ReadOk(content: string) | ReadFailed

  /** A dropped or chosen file: its name and what reading it gives. */
  datatype FileInput = FileInput(name: string, read: ReadOutcome)

  datatype ParseRequest = ParseRequest(content: string, courseTitle: string)

  /** What the parse request delivers: a thrown error with its message, or a decoded reply. */
  datatype ParseOutcome = ParseThrew(message: Option<string>) | ParseReplied(ok: bool, dataError: Option<string>)

  class FileUploadPage {
    var courseTitle: string
    var fileContent: string
    var fileName: string
    var isParsing: bool
    var error: string
    var dragActive: bool

    constructor ()
      ensures courseTitle == [] && fileContent == [] && fileName == [] && error == []
      ensures !isParsing && !dragActive
    {
      courseTitle, fileContent, fileName, error := [], [], [], [];
      isParsing, dragActive := false, false;
    }

    /**
     * `handleFile`: a name not ending in `.txt` (case matters) is refused and
     * nothing else changes; a file that reads is installed, clearing the error
     * and possibly the title; a failed read only sets the error.
     */
    method HandleFile(file: FileInput)
      modifies this
      ensures isParsing == old(isParsing) && dragActive == old(dragActive)
      ensures !EndsWith(file.name, ".txt") ==>
        && error == "Please upload a .txt file"
        && fileContent == old(fileContent) && fileName == old(fileName) && courseTitle == old(courseTitle)
      ensures EndsWith(file.name, ".txt") && file.read.ReadOk? ==>
        && fileContent == file.read.content && fileName == file.name && error == []
        && courseTitle == ExtractedTitle(file.read.content, old(courseTitle))
      ensures EndsWith(file.name, ".txt") && file.read.ReadFailed? ==>
        && error == "Failed to read file"
        && fileContent == old(fileContent) && fileName == old(fileName) && courseTitle == old(courseTitle)
    {
      if !EndsWith(file.name, ".txt") {
        error := "Please upload a .txt file";
        return;
      }
      match file.read {
        case ReadOk(content) =>
          fileContent := content;
          fileName := file.name;
          error := [];
          courseTitle := ExtractedTitle(content, courseTitle);
        case ReadFailed =>
          error := "Failed to read file";
      }
    }

    /** `handleDrag`: enter and over activate the drop zone, leave deactivates it, other events leave it. */
    method HandleDrag(eventType: string)
      modifies this
      ensures dragActive == if eventType == "dragenter" || eventType == "dragover" then true
                            else if eventType == "dragleave" then false
                            else old(dragActive)
      ensures courseTitle == old(courseTitle) && fileContent == old(fileContent) && fileName == old(fileName)
      ensures error == old(error) && isParsing == old(isParsing)
    {
      if eventType == "dragenter" || eventType == "dragover" {
        dragActive := true;
      } else if eventType == "dragleave" {
        dragActive := false;
      }
    }

    /** `handleDrop`: always deactivates the drop zone, then handles the first dropped file if there is one. */
    method HandleDrop(files: seq<FileInput>)
      modifies this
      ensures !dragActive && isParsing == old(isParsing)
      ensures files == [] ==>
        && courseTitle == old(courseTitle) && fileContent == old(fileContent) && fileName == old(fileName)
        && error == old(error)
      ensures files != [] && !EndsWith(files[0].name, ".txt") ==>
        && error == "Please upload a .txt file"
        && fileContent == old(fileContent) && fileName == old(fileName) && courseTitle == old(courseTitle)
      ensures files != [] && EndsWith(files[0].name, ".txt") && files[0].read.ReadOk? ==>
        && fileContent == files[0].read.content && fileName == files[0].name && error == []
        && courseTitle == ExtractedTitle(files[0].read.content, old(courseTitle))
      ensures files != [] && EndsWith(files[0].name, ".txt") && files[0].read.ReadFailed? ==>
        && error == "Failed to read file"
        && fileContent == old(fileContent) && fileName == old(fileName) && courseTitle == old(courseTitle)
    {
      dragActive := false;
      if files != [] {
        HandleFile(files[0]);
      }
    }

    /** `handleFileChange`: handles the first chosen file if there is one; the drop zone is not touched. */
    method HandleFileChange(files: seq<FileInput>)
      modifies this
      ensures dragActive == old(dragActive) && isParsing == old(isParsing)
      ensures files == [] ==>
        && courseTitle == old(courseTitle) && fileContent == old(fileContent) && fileName == old(fileName)
        && error == old(error)
      ensures files != [] && !EndsWith(files[0].name, ".txt") ==>
        && error == "Please upload a .txt file"
        && fileContent == old(fileContent) && fileName == old(fileName) && courseTitle == old(courseTitle)
      ensures files != [] && EndsWith(files[0].name, ".txt") && files[0].read.ReadOk? ==>
        && fileContent == files[0].read.content && fileName == files[0].name && error == []
        && courseTitle == ExtractedTitle(files[0].read.content, old(courseTitle))
      ensures files != [] && EndsWith(files[0].name, ".txt") && files[0].read.ReadFailed? ==>
        && error == "Failed to read file"
        && fileContent == old(fileContent) && fileName == old(fileName) && courseTitle == old(courseTitle)
    {
      if files != [] {
        HandleFile(files[0]);
      }
    }

    /**
     * The synchronous half of `handleSubmit`: without content it only sets
     * the error and sends nothing; otherwise it clears the error, marks the
     * page as parsing and sends the content with the submitted title.
     */
    method BeginSubmit() returns (req: Option<ParseRequest>)
      modifies this
      ensures fileContent == [] ==> req.None? && error == "Please upload a file first" && isParsing == old(isParsing)
      ensures fileContent != [] ==>
        && req == Some(ParseRequest(fileContent, SubmittedTitle(courseTitle)))
        && error == [] && isParsing
      ensures courseTitle == old(courseTitle) && fileContent == old(fileContent) && fileName == old(fileName)
      ensures dragActive == old(dragActive)
    {
      if fileContent == [] {
        error := "Please upload a file first";
        return None;
      }
      error := [];
      isParsing := true;
      req := Some(ParseRequest(fileContent, SubmittedTitle(courseTitle)));
    }

    /**
     * The second half: a successful reply moves on to the module editor; any
     * other outcome sets the error to its message, or a fixed one; the page
     * stops parsing either way.
     */
    method FinishSubmit(outcome: ParseOutcome) returns (navigated: bool)
      modifies this
      ensures !isParsing
      ensures navigated <==> outcome.ParseReplied? && outcome.ok
      ensures navigated ==> error == old(error)
      ensures outcome.ParseReplied? && !outcome.ok ==> error == Or(outcome.dataError, "Failed to parse modules")
      ensures outcome.ParseThrew? ==> error == Or(outcome.message, "Failed to parse modules")
      ensures !navigated ==> error != []
      ensures courseTitle == old(courseTitle) && fileContent == old(fileContent) && fileName == old(fileName)
      ensures dragActive == old(dragActive)
    {
      navigated := false;
      match outcome {
        case ParseReplied(ok, dataError) =>
          if ok {
            navigated := true;
          } else {
            var thrown := Or(dataError, "Failed to parse modules");
            error := Or(Some(thrown), "Failed to parse modules");
          }
        case ParseThrew(message) =>
          error := Or(message, "Failed to parse modules");
      }
      isParsing := false;
    }

    /** `clearFile`: forgets the file and the title; the error and drag state stay. */
    method ClearFile()
      modifies this
      ensures fileContent == [] && fileName == [] && courseTitle == []
      ensures error == old(error) && isParsing == old(isParsing) && dragActive == old(dragActive)
    {
      fileContent := [];
      fileName := [];
      courseTitle := [];
    }
  }
}
