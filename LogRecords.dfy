/**
 * One reload log file turned into the tuple
 * (event, status, status_code, date, appID, path) that `LogDB.__get_infos` builds,
 * with the file's contents given as its list of lines.
 */
module LogRecords {
  import opened Wrappers
  import opened Strings
  import Dates

  const ErrorMarker := "Error:"
  const SuccessMarker := "Search index creation completed successfully"
  const NoMessage := "No message found."
  const PathDepth := 4

  /** A log file: the components of its path (`Path.parts`) and its lines (`readlines()`). */
  datatype LogFile = LogFile(parts: seq<string>, lines: seq<string>)

  /** One row of the log table. */
  datatype LogRecord = LogRecord(
    event: string,
    status: string,
    statusCode: string,
    date: string,
    appId: string,
    path: string)

  /** The exceptions extraction can raise. */
  datatype ExtractError =
    | NoPathParts           // IndexError: `parts[-1]` of a path without components
    | InvalidPathStructure  // ValueError: fewer than five components
    | NoDateToken           // IndexError: `app[1]` of a file name without a dot
    | BadDate               // ValueError from `strptime`
    | OpenFileTypeError     // TypeError: `self.__open_file(file)` on a method declared without `self`

  // ---------------------------------------------------------------------------
  // Status of a log: the specification, stated on the lines in file order.

  /** The index of the last line that contains `Error:`, or -1. */
  function LastErrorLine(lines: seq<string>): (k: int)
    ensures -1 <= k < |lines|
    ensures k >= 0 ==> Contains(lines[k], ErrorMarker)
    ensures k >= 0 ==> forall j :: k < j < |lines| ==> !Contains(lines[j], ErrorMarker)
    ensures k == -1 ==> forall j :: 0 <= j < |lines| ==> !Contains(lines[j], ErrorMarker)
  {
    if |lines| == 0 then -1
    else if Contains(lines[|lines| - 1], ErrorMarker) then |lines| - 1
    else LastErrorLine(lines[..|lines| - 1])
  }

  /** `line[line.find('Error:'):].strip()`: the stripped text from the first `Error:` on. */
  function ErrorText(line: string): (r: string)
    requires Contains(line, ErrorMarker)
    ensures |r| >= |ErrorMarker| && r[..|ErrorMarker|] == ErrorMarker
  {
    FindIffContains(line, ErrorMarker);
    var tail := line[Find(line, ErrorMarker)..];
    StripKeepsHead(tail, |ErrorMarker|);
    Strip(tail)
  }

  predicate AnyLineContains(lines: seq<string>, pat: string)
  {
    exists i | 0 <= i < |lines| :: Contains(lines[i], pat)
  }

  /**
   * The status message of a log: the error text of the last line containing `Error:`;
   * failing that the success marker when some line contains it; failing that "No message found.".
   */
  function Status(lines: seq<string>): string
  {
    var k := LastErrorLine(lines);
    if k >= 0 then ErrorText(lines[k])
    else if AnyLineContains(lines, SuccessMarker) then SuccessMarker
    else NoMessage
  }

  /** `'OK' if 'Error:' not in status else 'Error'`. */
  function StatusCode(status: string): string
  {
    if Contains(status, ErrorMarker) then "Error" else "OK"
  }

  lemma MarkersHaveNoError()
    ensures !Contains(SuccessMarker, ErrorMarker) && !Contains(NoMessage, ErrorMarker)
  {
    if Contains(SuccessMarker, ErrorMarker) {
      ContainsHasFirstChar(SuccessMarker, ErrorMarker);
      assert false;
    }
    if Contains(NoMessage, ErrorMarker) {
      ContainsHasFirstChar(NoMessage, ErrorMarker);
      assert false;
    }
  }

  /** The status code is "Error" exactly when some line of the log contains `Error:`. */
  lemma StatusCodeIffErrorLine(lines: seq<string>)
    ensures StatusCode(Status(lines)) == "Error" <==> AnyLineContains(lines, ErrorMarker)
  {
    var k := LastErrorLine(lines);
    if k >= 0 {
      ContainsPrefix(Status(lines), ErrorMarker);
    } else {
      MarkersHaveNoError();
    }
  }

  /**
   * The last line containing `Error:` decides the status, whatever success markers
   * come before or after it.
   */
  lemma LastErrorLineWins(lines: seq<string>, k: nat)
    requires k < |lines| && Contains(lines[k], ErrorMarker)
    requires forall j :: k < j < |lines| ==> !Contains(lines[j], ErrorMarker)
    ensures Status(lines) == ErrorText(lines[k])
  {
    assert LastErrorLine(lines) == k;
  }

  /** Without an `Error:` line the status is the success marker if any line has it, else the default. */
  lemma StatusWithoutErrorLine(lines: seq<string>)
    requires !AnyLineContains(lines, ErrorMarker)
    ensures Status(lines) == (if AnyLineContains(lines, SuccessMarker) then SuccessMarker else NoMessage)
    ensures StatusCode(Status(lines)) == "OK"
  {
    assert LastErrorLine(lines) == -1;
    MarkersHaveNoError();
  }

  // ---------------------------------------------------------------------------
  // `__get_status`: the list is reversed in place, then scanned from its (new) front.

  /** The elements of `s` in reverse order. */
  function Reversed<T>(s: seq<T>): (r: seq<T>)
    ensures |r| == |s|
  {
    seq(|s|, i requires 0 <= i < |s| => s[|s| - 1 - i])
  }

  /** `content.reverse()`. */
  method Reverse(content: array<string>)
    modifies content
    ensures content[..] == Reversed(old(content[..]))
  {
    var lo, hi := 0, content.Length;
    while lo + 1 < hi
      invariant 0 <= lo && lo + hi == content.Length && (lo <= hi || lo == hi + 1)
      invariant forall j :: 0 <= j < lo ==> content[j] == old(content[content.Length - 1 - j])
      invariant forall j :: hi <= j < content.Length ==> content[j] == old(content[content.Length - 1 - j])
      invariant forall j :: lo <= j < hi ==> content[j] == old(content[j])
    {
      content[lo], content[hi - 1] := content[hi - 1], content[lo];
      lo, hi := lo + 1, hi - 1;
    }
  }

  /**
   * `__get_status`: reverses the lines in place and returns the status message. An
   * `Error:` line ends the scan at once; a success-marker line records the marker and
   * the scan goes on.
   */
  method GetStatus(content: array<string>) returns (status: string)
    modifies content
    ensures content[..] == Reversed(old(content[..]))
    ensures status == Status(old(content[..]))
  {
    ghost var lines := content[..];
    Reverse(content);
    status := ScanReversed(content, lines);
  }

  /** The loop of `__get_status` over the reversed lines of a log. */
  method ScanReversed(content: array<string>, ghost lines: seq<string>) returns (status: string)
    requires content[..] == Reversed(lines)
    ensures status == Status(lines)
  {
    var n := content.Length;
    var hasMessage := false;
    var message := "";
    var i := 0;
    while i < n
      invariant 0 <= i <= n
      invariant forall j :: 0 <= j < i ==> !Contains(content[j], ErrorMarker)
      invariant hasMessage <==> exists j :: 0 <= j < i && Contains(content[j], SuccessMarker)
      invariant hasMessage ==> message == SuccessMarker
    {
      var line := content[i];
      if Contains(line, ErrorMarker) {
        FindIffContains(line, ErrorMarker);
        status := Strip(line[Find(line, ErrorMarker)..]);
        ErrorScanResult(lines, content[..], i);
        return;
      } else if Contains(line, SuccessMarker) {
        message := SuccessMarker;
        hasMessage := true;
      }
      i := i + 1;
    }
    status := if hasMessage then message else NoMessage;
    CleanScanResult(lines, content[..], hasMessage);
  }

  /** The reversed scan stopping at its `i`-th line finds the last error line of the log. */
  lemma ErrorScanResult(lines: seq<string>, rev: seq<string>, i: nat)
    requires rev == Reversed(lines) && i < |rev| && Contains(rev[i], ErrorMarker)
    requires forall j :: 0 <= j < i ==> !Contains(rev[j], ErrorMarker)
    ensures Status(lines) == ErrorText(rev[i])
  {
    var n := |lines|;
    assert rev[i] == lines[n - 1 - i];
    forall j | n - 1 - i < j < n ensures !Contains(lines[j], ErrorMarker) {
      assert lines[j] == rev[n - 1 - j];
    }
    LastErrorLineWins(lines, n - 1 - i);
  }

  /** The reversed scan that runs to the end has seen every line of the log. */
  lemma CleanScanResult(lines: seq<string>, rev: seq<string>, hasMessage: bool)
    requires rev == Reversed(lines)
    requires forall j :: 0 <= j < |rev| ==> !Contains(rev[j], ErrorMarker)
    requires hasMessage <==> exists j :: 0 <= j < |rev| && Contains(rev[j], SuccessMarker)
    ensures Status(lines) == if hasMessage then SuccessMarker else NoMessage
  {
    var n := |lines|;
    forall j | 0 <= j < n ensures !Contains(lines[j], ErrorMarker) {
      assert lines[j] == rev[n - 1 - j];
    }
    if AnyLineContains(lines, SuccessMarker) {
      var j :| 0 <= j < n && Contains(lines[j], SuccessMarker);
      assert lines[j] == rev[n - 1 - j];
    }
    if hasMessage {
      var j :| 0 <= j < n && Contains(rev[j], SuccessMarker);
      assert rev[j] == lines[n - 1 - j];
    }
    StatusWithoutErrorLine(lines);
  }

  // ---------------------------------------------------------------------------
  // `__get_infos`

  /** `Path.stem` (Python 3.12): the name without its last suffix, a suffix being a final `.x` not at the start. */
  function Stem(name: string): (r: string)
    ensures |r| <= |name| && r == name[..|r|]
    ensures |r| < |name| ==> 0 < |r| && |r| + 1 < |name| && name[|r|] == '.'
    ensures |r| < |name| ==> forall j :: |r| < j < |name| ==> name[j] != '.'
    ensures |r| == |name| ==> forall j :: 0 < j < |name| - 1 && name[j] == '.' ==> name[|name| - 1] == '.'
  {
    var i := RFind(name, '.');
    if 0 < i < |name| - 1 then name[..i] else name
  }

  /**
   * `str(Path(*parts[4:])).replace('\\', '/')`: the components from index 4 on joined by
   * `/`. Windows joins them with `\\` and the replacement turns that into `/`; a POSIX
   * component may itself hold a `\\`, which the replacement also turns into `/`.
   */
  function RelativePath(parts: seq<string>): string
    requires |parts| > PathDepth
  {
    ReplaceChar(Join(parts[PathDepth..], '/'), '\\', '/')
  }

  /** `app[1][:8]`. */
  function Prefix(s: string, n: nat): string
  {
    if |s| <= n then s else s[..n]
  }

  /**
   * `__get_infos` with the file's lines given: the one-tuple list for a log file, or the
   * exception it raises. Checks run in the source's order: `parts[-1]`, the depth of the
   * path, then (after the status is read) the second dot-token and its date.
   */
  function GetInfos(file: LogFile): Result<seq<LogRecord>, ExtractError>
  {
    if |file.parts| == 0 then Err(NoPathParts)
    else
      var name := file.parts[|file.parts| - 1];
      var app := Split(name, '.');
      if |file.parts| < PathDepth + 1 then Err(InvalidPathStructure)
      else
        var status := Status(file.lines);
        match RecordDate(app)
        case Err(e) => Err(e)
        case Ok(date) =>
          Ok([LogRecord(app[0], status, StatusCode(status), date, Stem(name), RelativePath(file.parts))])
  }

  /**
   * `datetime.strptime(app[1][:8], '%Y%m%d').strftime('%Y-%m-%d')` for the dot-tokens
   * `app` of a file name.
   */
  function RecordDate(app: seq<string>): (r: Result<string, ExtractError>)
    ensures r.Ok? ==> |r.value| == 10 && r.value[4] == '-' && r.value[7] == '-'
    ensures r.Ok? ==> Dates.AllDigits(r.value[..4]) && Dates.AllDigits(r.value[5..7]) && Dates.AllDigits(r.value[8..])
  {
    if |app| < 2 then Err(NoDateToken)
    else
      match Dates.Strptime(Prefix(app[1], 8))
      case None => Err(BadDate)
      case Some(d) => Ok(Dates.Strftime(d))
  }

  /** A path with fewer than five components yields no tuple. */
  lemma ShortPathRejected(file: LogFile)
    requires |file.parts| < PathDepth + 1
    ensures GetInfos(file) == Err(if |file.parts| == 0 then NoPathParts else InvalidPathStructure)
  {
  }

  /** `FileName` of a log file with at least one component. */
  function FileName(file: LogFile): string
    requires |file.parts| > 0
  {
    file.parts[|file.parts| - 1]
  }

  /**
   * Extraction succeeds exactly when the path has five or more components, the file
   * name has a second dot-token, and the first eight characters of that token parse as a date.
   */
  lemma GetInfosSucceedsIff(file: LogFile)
    ensures GetInfos(file).Ok? <==>
      && |file.parts| >= PathDepth + 1
      && '.' in FileName(file)
      && Dates.Strptime(Prefix(Split(FileName(file), '.')[1], 8)).Some?
  {
    if |file.parts| >= PathDepth + 1 {
      var app := Split(FileName(file), '.');
      assert |app| >= 2 <==> '.' in FileName(file);
      assert GetInfos(file).Ok? <==> RecordDate(app).Ok?;
    }
  }

  /**
   * A date token whose first eight characters are fewer than six, or hold a character
   * that is neither a digit nor a space (a letter, `-`, `_`), makes extraction raise
   * ValueError, once the path checks have passed.
   */
  lemma UnparseableDateRejected(file: LogFile)
    requires |file.parts| >= PathDepth + 1 && |Split(FileName(file), '.')| >= 2
    requires var t := Prefix(Split(FileName(file), '.')[1], 8);
      |t| < 6 || exists i :: 0 <= i < |t| && !Dates.IsDigit(t[i]) && t[i] != ' '
    ensures GetInfos(file) == Err(BadDate)
  {
    var t := Prefix(Split(FileName(file), '.')[1], 8);
    if Dates.Strptime(t).Some? {
      Dates.AcceptedChars(t);
      assert false;
    }
  }

  /** Joining pieces free of `c` with a separator other than `c` gives a text free of `c`. */
  lemma {:induction false} JoinAvoids(pieces: seq<string>, sep: char, c: char)
    requires sep != c && forall i :: 0 <= i < |pieces| ==> c !in pieces[i]
    ensures c !in Join(pieces, sep)
    decreases |pieces|
  {
    if |pieces| > 1 {
      JoinAvoids(pieces[1..], sep, c);
    }
  }

  /**
   * The relative path holds no backslash, and when no component holds a separator it
   * splits on `/` back into the components from index 4 on.
   */
  lemma RelativePathRoundTrip(parts: seq<string>)
    requires |parts| > PathDepth
    ensures '\\' !in RelativePath(parts)
    ensures (forall i :: PathDepth <= i < |parts| ==> '/' !in parts[i] && '\\' !in parts[i]) ==>
      Split(RelativePath(parts), '/') == parts[PathDepth..]
  {
    var joined := Join(parts[PathDepth..], '/');
    assert forall i :: 0 <= i < |joined| ==> RelativePath(parts)[i] != '\\';
    if forall i :: PathDepth <= i < |parts| ==> '/' !in parts[i] && '\\' !in parts[i] {
      var tail := parts[PathDepth..];
      assert forall i :: 0 <= i < |tail| ==> '/' !in tail[i] && '\\' !in tail[i] by {
        forall i | 0 <= i < |tail| ensures '/' !in tail[i] && '\\' !in tail[i] {
          assert tail[i] == parts[PathDepth + i];
        }
      }
      JoinAvoids(tail, '/', '\\');
      assert RelativePath(parts) == joined;
      SplitJoin(tail, '/');
    }
  }

  /**
   * What an extracted tuple holds: exactly one tuple, whose event is the file name up to
   * its first dot, whose date is rendered YYYY-MM-DD, whose appID is the file name without
   * its last suffix, whose path has no backslash, and whose status code is "Error"
   * exactly when some line of the log contains `Error:`.
   */
  lemma GetInfosFields(file: LogFile)
    requires GetInfos(file).Ok?
    ensures |GetInfos(file).value| == 1
    ensures var rec := GetInfos(file).value[0];
      var name := FileName(file);
      && |rec.event| < |name| && rec.event == name[..|rec.event|] && '.' !in rec.event && name[|rec.event|] == '.'
      && rec.status == Status(file.lines)
      && (rec.statusCode == "Error" <==> AnyLineContains(file.lines, ErrorMarker))
      && (rec.statusCode == "OK" <==> !AnyLineContains(file.lines, ErrorMarker))
      && Ok(rec.date) == RecordDate(Split(name, '.'))
      && rec.appId == Stem(name)
      && '\\' !in rec.path && rec.path == RelativePath(file.parts)
  {
    var name := FileName(file);
    FirstPieceIsPrefixBeforeSep(name, '.');
    StatusCodeIffErrorLine(file.lines);
    RelativePathRoundTrip(file.parts);
  }

  /**
   * The date of a tuple when the second dot-token starts with eight digits: those
   * digits, read as YYYYMMDD and punctuated as YYYY-MM-DD; any other eight digits fail.
   */
  lemma EightDigitRecordDate(app: seq<string>)
    requires |app| >= 2 && |app[1]| >= 8 && Dates.AllDigits(app[1][..8])
    ensures var t := app[1];
      && (RecordDate(app).Ok? <==> Dates.ValidDate(Dates.DigitsDate(t[..8])))
      && (RecordDate(app).Ok? ==> RecordDate(app).value == t[..4] + "-" + t[4..6] + "-" + t[6..8])
      && (RecordDate(app).Err? ==> RecordDate(app).error == BadDate)
  {
    var t := app[1];
    assert Prefix(t, 8) == t[..8];
    Dates.EightDigitToken(t[..8]);
    assert t[..8][..4] == t[..4] && t[..8][4..6] == t[4..6] && t[..8][6..] == t[6..8];
  }

  /** A file name with a single dot-token has no date: `app[1]` raises IndexError. */
  lemma NoSecondToken(app: seq<string>)
    requires |app| < 2
    ensures RecordDate(app) == Err(NoDateToken)
  {
  }

  /**
   * `__get_infos` exactly as written. `__open_file` is declared without `self`, so the call
   * `self.__open_file(file)` in `__get_status` passes two arguments to a one-parameter
   * function and raises TypeError once the path checks have passed.
   */
  function GetInfosAsWritten(file: LogFile): (r: Result<seq<LogRecord>, ExtractError>)
    ensures r.Err?
    ensures |file.parts| >= PathDepth + 1 ==> r.error == OpenFileTypeError
  {
    if |file.parts| == 0 then Err(NoPathParts)
    else if |file.parts| < PathDepth + 1 then Err(InvalidPathStructure)
    else Err(OpenFileTypeError)
  }
}
