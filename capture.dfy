/**
 * Screen capture on Windows (internal/capture/capture_windows.go): picking the
 * display under the cursor, the guard conditions and file handling of one
 * capture, the temporary file name, and the cleanup of day-old temporary files.
 * The screenshot library, the cursor query, the clock and the file system are
 * answers passed in (`CaptureEnv`, `FileInfo`).
 */
module Capture {
  import opened Wrappers
  import Decimal

  /** The path separator `filepath` uses on Windows. */
  const SEPARATOR: char := '\\'
  const TEMP_PREFIX: string := "snapview-"
  const TEMP_SUFFIX: string := ".png"
  /** `24*time.Hour`, in nanoseconds. */
  const DAY_NANOS: int := 24 * 60 * 60 * 1_000_000_000

  datatype Point = Point(x: int, y: int)

  /** A display's bounds: `Min` inclusive, `Max` exclusive. */
  datatype Rect = Rect(minX: int, minY: int, maxX: int, maxY: int)

  predicate Contains(r: Rect, p: Point) {
    r.minX <= p.x < r.maxX && r.minY <= p.y < r.maxY
  }

  /** The first display whose bounds contain `p`, if any. */
  function FirstContaining(displays: seq<Rect>, p: Point): (r: Option<nat>)
    ensures r.Some? ==> r.value < |displays| && Contains(displays[r.value], p)
    ensures r.Some? ==> forall j :: 0 <= j < r.value ==> !Contains(displays[j], p)
    ensures r.None? <==> forall j :: 0 <= j < |displays| ==> !Contains(displays[j], p)
  {
    if displays == [] then None
    else if Contains(displays[0], p) then Some(0)
    else match FirstContaining(displays[1..], p)
      case None => None
      case Some(i) => Some(i + 1)
  }

  /**
   * `getDisplayAtCursor`: the first display containing the cursor, and 0 when
   * none does or the cursor position could not be read.
   */
  method DisplayAtCursor(cursor: Option<Point>, displays: seq<Rect>) returns (i: nat)
    ensures cursor.None? ==> i == 0
    ensures cursor.Some? ==> i == match FirstContaining(displays, cursor.value)
                                  case Some(first) => first
                                  case None => 0
    ensures |displays| > 0 ==> i < |displays|
  {
    if cursor.None? {
      return 0;
    }
    var p := cursor.value;
    var k := 0;
    while k < |displays|
      invariant 0 <= k <= |displays|
      invariant forall j :: 0 <= j < k ==> !Contains(displays[j], p)
    {
      var bounds := displays[k];
      if bounds.minX <= p.x && p.x < bounds.maxX && bounds.minY <= p.y && p.y < bounds.maxY {
        return k;
      }
      k := k + 1;
    }
    return 0;
  }

  /** The index of the display a capture grabs: the first one under the cursor, else display 0. */
  function CursorDisplay(displays: seq<Rect>, cursor: Option<Point>): (i: nat)
    ensures |displays| > 0 ==> i < |displays|
    ensures cursor.Some? && FirstContaining(displays, cursor.value).Some? ==> Contains(displays[i], cursor.value)
    ensures cursor.Some? ==> forall j :: 0 <= j < i && j < |displays| ==> !Contains(displays[j], cursor.value)
    ensures (cursor.None? || FirstContaining(displays, cursor.value).None?) ==> i == 0
  {
    if cursor.Some? && FirstContaining(displays, cursor.value).Some? then FirstContaining(displays, cursor.value).value
    else 0
  }

  /** `filepath.Join(dir, name)` for a clean directory and a plain file name. */
  function JoinPath(dir: string, name: string): (path: string)
    ensures |path| == |name| + (if dir == [] then 0 else |dir| + 1)
    ensures path[|path| - |name|..] == name
    ensures dir != [] ==> path[..|dir|] == dir && path[|dir|] == SEPARATOR
  {
    if dir == [] then name else dir + [SEPARATOR] + name
  }

  /** The temporary file name for the capture taken `nanos` after the Unix epoch. */
  function TempName(nanos: int): (name: string)
    ensures |name| > |TEMP_PREFIX| + |TEMP_SUFFIX|
    ensures name[..|TEMP_PREFIX|] == TEMP_PREFIX && name[|name| - |TEMP_SUFFIX|..] == TEMP_SUFFIX
    ensures name[|TEMP_PREFIX|..|name| - |TEMP_SUFFIX|] == Decimal.FormatInt(nanos)
  {
    var name := TEMP_PREFIX + Decimal.FormatInt(nanos) + TEMP_SUFFIX;
    assert name[|TEMP_PREFIX|..|name| - |TEMP_SUFFIX|] == Decimal.FormatInt(nanos);
    name
  }

  /** A path the cleanup glob `<tempDir>\snapview-*.png` matches: `*` spans no separator. */
  predicate MatchesTempPattern(dir: string, path: string) {
    var head := JoinPath(dir, TEMP_PREFIX);
    && |path| >= |head| + |TEMP_SUFFIX|
    && path[..|head|] == head
    && path[|path| - |TEMP_SUFFIX|..] == TEMP_SUFFIX
    && forall k :: |head| <= k < |path| - |TEMP_SUFFIX| ==> path[k] != SEPARATOR
  }

  /** Every temporary file a capture writes is a candidate for the cleanup. */
  lemma TempFileMatchesPattern(dir: string, nanos: int)
    ensures MatchesTempPattern(dir, JoinPath(dir, TempName(nanos)))
  {
    var digits := Decimal.FormatInt(nanos);
    var path := JoinPath(dir, TempName(nanos));
    var head := JoinPath(dir, TEMP_PREFIX);
    var lead := if dir == [] then [] else dir + [SEPARATOR];
    assert path == lead + TEMP_PREFIX + digits + TEMP_SUFFIX;
    assert head == lead + TEMP_PREFIX;
    assert path[..|head|] == head;
    assert path[|path| - |TEMP_SUFFIX|..] == TEMP_SUFFIX;
    NoSeparatorInNumber(nanos);
    forall k | |head| <= k < |path| - |TEMP_SUFFIX|
      ensures path[k] != SEPARATOR
    {
      assert path[k] == digits[k - |head|];
    }
  }

  /** A formatted number holds only a sign and digits, never a path separator. */
  lemma NoSeparatorInNumber(n: int)
    ensures forall k :: 0 <= k < |Decimal.FormatInt(n)| ==> Decimal.FormatInt(n)[k] != SEPARATOR
  {
    var digits := Decimal.FormatInt(n);
    var m := if n < 0 then -n else n;
    forall k | 0 <= k < |digits|
      ensures digits[k] != SEPARATOR
    {
      if n < 0 && k > 0 {
        assert digits[k] == Decimal.NatDigits(m)[k - 1];
      }
    }
  }

  /** The answers the screenshot library, the clock and the file system give during one capture. */
  datatype CaptureEnv = CaptureEnv(
    displays: seq<Rect>,
    cursor: Option<Point>,
    grab: Outcome,
    tempDir: string,
    nanos: int,
    createTemp: Outcome,
    timestamp: string,
    createPermanent: Outcome,
    encode: Outcome)

  /** Where the auto-saved copy of a capture goes. */
  function PermanentPath(saveDir: string, timestamp: string): string {
    JoinPath(saveDir, "screenshot_" + timestamp + ".png")
  }

  /**
   * `captureScreen`: an error without displays; otherwise it grabs the display
   * under the cursor, creates the temporary file and, when auto-save is on with
   * a directory, the permanent copy (whose creation error is ignored), then
   * encodes into every file it created and returns the temporary path.
   */
  method CaptureScreen(env: CaptureEnv, autoSave: bool, saveDir: string)
    returns (r: Result<string>, grabbed: Option<Rect>, created: seq<string>)
    ensures env.displays == [] ==> r == Failure("no active displays found") && grabbed == None && created == []
    ensures grabbed.Some? <==> env.displays != []
    ensures grabbed.Some? ==> grabbed.value in env.displays
    ensures env.displays != [] ==> grabbed == Some(env.displays[CursorDisplay(env.displays, env.cursor)])
    ensures grabbed.Some? && env.cursor.Some? && FirstContaining(env.displays, env.cursor.value).Some? ==>
              Contains(grabbed.value, env.cursor.value)
    ensures env.displays != [] && env.grab.Fail? ==>
              r == Failure("screenshot capture failed: " + env.grab.error) && created == []
    ensures env.displays != [] && env.grab.Pass? && env.createTemp.Fail? ==>
              r == Failure("failed to create image file: " + env.createTemp.error) && created == []
    ensures env.displays != [] && env.grab.Pass? && env.createTemp.Pass? ==>
              && created == [JoinPath(env.tempDir, TempName(env.nanos))] +
                           (if autoSave && saveDir != [] && env.createPermanent.Pass?
                            then [PermanentPath(saveDir, env.timestamp)] else [])
              && r == (if env.encode.Pass? then Success(JoinPath(env.tempDir, TempName(env.nanos)))
                       else Failure("failed to encode image: " + env.encode.error))
    ensures r.Success? ==> MatchesTempPattern(env.tempDir, r.value)
  {
    created := [];
    if |env.displays| == 0 {
      return Failure("no active displays found"), None, created;
    }
    var displayIndex := DisplayAtCursor(env.cursor, env.displays);
    grabbed := Some(env.displays[displayIndex]);
    if env.grab.Fail? {
      return Failure("screenshot capture failed: " + env.grab.error), grabbed, created;
    }
    var imagePath := JoinPath(env.tempDir, TempName(env.nanos));
    if env.createTemp.Fail? {
      return Failure("failed to create image file: " + env.createTemp.error), grabbed, created;
    }
    created := [imagePath];
    if autoSave && saveDir != [] {
      var permanentPath := PermanentPath(saveDir, env.timestamp);
      if env.createPermanent.Pass? {
        created := created + [permanentPath];
      }
    }
    if env.encode.Fail? {
      return Failure("failed to encode image: " + env.encode.error), grabbed, created;
    }
    TempFileMatchesPattern(env.tempDir, env.nanos);
    return Success(imagePath), grabbed, created;
  }

  // ---------------------------------------------------------------- cleanup

  /** A glob match and what `os.Stat` said of it: its modification time, or `None` for an error. */
  datatype FileInfo = FileInfo(path: string, modTime: Option<int>)

  /** A file is removed when it can be stat'ed and is strictly more than a day old at `now`. */
  predicate Stale(f: FileInfo, now: int) {
    f.modTime.Some? && now - f.modTime.value > DAY_NANOS
  }

  /** The paths of the stale files, in glob order. */
  function StalePaths(files: seq<FileInfo>, now: int): (paths: seq<string>)
    ensures |paths| <= |files|
  {
    if files == [] then []
    else StalePaths(files[..|files| - 1], now)
         + if Stale(files[|files| - 1], now) then [files[|files| - 1].path] else []
  }

  /** A path is removed exactly when some matched file with that path is stale. */
  lemma {:induction false} StalePathsMembership(files: seq<FileInfo>, now: int, p: string)
    ensures p in StalePaths(files, now) <==> exists f :: f in files && f.path == p && Stale(f, now)
  {
    if files != [] {
      var init := files[..|files| - 1];
      var last := files[|files| - 1];
      StalePathsMembership(init, now, p);
      assert files == init + [last];
      if p in StalePaths(files, now) && p !in StalePaths(init, now) {
        assert Stale(last, now) && last.path == p;
      }
    }
  }

  /**
   * `CleanupOldTempFiles`: nothing when the glob fails; otherwise the stale
   * matches are removed, one `os.Remove` each, in glob order.
   */
  method CleanupOldTempFiles(matches: Option<seq<FileInfo>>, now: int) returns (removed: seq<string>)
    ensures matches.None? ==> removed == []
    ensures matches.Some? ==> removed == StalePaths(matches.value, now)
  {
    removed := [];
    if matches.None? {
      return;
    }
    var files := matches.value;
    var i := 0;
    while i < |files|
      invariant 0 <= i <= |files|
      invariant removed == StalePaths(files[..i], now)
    {
      var info := files[i];
      assert files[..i + 1][..i] == files[..i];
      if info.modTime.Some? && now - info.modTime.value > DAY_NANOS {
        removed := removed + [info.path];
      }
      i := i + 1;
    }
    assert files[..i] == files;
  }
}
