/** The file logger: its settings, the name of the file it writes to, and
    the paging that `Get` applies to the entries read back from that file.
    Reading, decoding and appending the file are not part of this model:
    `Get` receives what the read and the decoding produced, and the current
    date is passed in. */
module Logs {
  import opened Common
  import opened GoStrings
  import opened Paths

  datatype MessageType = Debug | Info | Success | Failure

  /** One decoded log entry; the time is the entry's own time stamp. */
  datatype LogItem = LogItem(time: int, message: string, messageType: MessageType)

  /** What reading and decoding the log file gave. */
  datatype LogSource = Unreadable | Undecodable | Decoded(items: seq<LogItem>)

  /** The message key of the response's error, with its argument. */
  datatype LogError = FileNotExists(file: string) | FileNotDecoded(file: string) | OutOfRange(offset: int)

  datatype Response = Response(offset: int, limit: int, size: int, count: int, logs: seq<LogItem>, error: Option<LogError>)

  /** A response, or the run-time panic of a slice expression whose bounds
      are out of order. */
  datatype Outcome = Answer(response: Response) | SlicePanic

  /** The file name and path `getLogFile` computes. */
  datatype LogFile = LogFile(name: string, path: string)

  /** The end of the page `Get` returns, before it is capped at the number
      of entries: as in the code, a non-positive `size` gives `pageSize - 1`
      whatever the offset. */
  function PageEnd(offset: int, size: int, pageSize: int): (limit: int)
    ensures size > 0 ==> limit == offset + size
    ensures size <= 0 ==> limit == pageSize - 1
  {
    if size > 0 then offset + size else pageSize - 1
  }

  /** The paging of `Get` on the decoded entries, as written. */
  function Paginate(items: seq<LogItem>, offset: int, size: int, pageSize: int): (r: Outcome)
    ensures (|items| == 0 || offset >= |items|) ==>
      r == Answer(Response(offset, pageSize, |items|, 0, [], Some(OutOfRange(offset))))
    ensures 0 < |items| && offset < |items| ==>
      (r.SlicePanic? <==> offset < 0 || (size <= 0 && pageSize - 1 < offset))
    ensures r.Answer? && r.response.error.None? ==>
      0 <= offset < |items| &&
      var limit := Min(PageEnd(offset, size, pageSize), |items|);
      r.response == Response(offset, pageSize, |items|, limit - offset, items[offset..limit], None)
    ensures r.Answer? && r.response.error.None? ==>
      |r.response.logs| == r.response.count <= |items| - offset
  {
    var base := Response(offset, pageSize, |items|, 0, [], None);
    if |items| == 0 || offset >= |items| then Answer(base.(error := Some(OutOfRange(offset))))
    else
      var limit := Min(PageEnd(offset, size, pageSize), |items|);
      if offset < 0 || limit < offset then SlicePanic
      else Answer(base.(count := limit - offset, logs := items[offset..limit]))
  }

  function Min(a: int, b: int): (m: int)
    ensures m <= a && m <= b && (m == a || m == b)
  {
    if a <= b then a else b
  }

  /** The paging evidently intended: a non-positive `size` asks for one full
      page from the offset. */
  function PaginateIntended(items: seq<LogItem>, offset: int, size: int, pageSize: int): (r: Outcome)
    ensures (|items| == 0 || offset >= |items|) ==>
      r == Answer(Response(offset, pageSize, |items|, 0, [], Some(OutOfRange(offset))))
    ensures 0 <= offset < |items| && pageSize >= 0 ==> r.Answer? && r.response.error.None?
    ensures r.Answer? && r.response.error.None? ==>
      0 <= offset < |items| &&
      var want := if size > 0 then size else pageSize;
      var limit := Min(offset + want, |items|);
      offset <= limit &&
      r.response == Response(offset, pageSize, |items|, limit - offset, items[offset..limit], None)
  {
    var base := Response(offset, pageSize, |items|, 0, [], None);
    if |items| == 0 || offset >= |items| then Answer(base.(error := Some(OutOfRange(offset))))
    else
      var limit := Min(offset + (if size > 0 then size else pageSize), |items|);
      if offset < 0 || limit < offset then SlicePanic
      else Answer(base.(count := limit - offset, logs := items[offset..limit]))
  }

  /** With the default page size, a request for the first page returns one
      entry less than a page although more entries are there, and a request
      for the second page panics. */
  lemma PageShortByOne(items: seq<LogItem>)
    requires |items| == 30
    ensures var r := Paginate(items, 0, 0, 20); r.Answer? && r.response.count == 19
    ensures Paginate(items, 20, 0, 20).SlicePanic?
    ensures var r := PaginateIntended(items, 0, 0, 20); r.Answer? && r.response.count == 20
    ensures var r := PaginateIntended(items, 20, 0, 20); r.Answer? && r.response.count == 10
  {
  }

  /** Without a page size, the intended paging returns exactly one page, or
      the rest of the entries when fewer remain. */
  lemma IntendedPageIsFull(items: seq<LogItem>, offset: int, pageSize: int)
    requires 0 <= offset < |items| && pageSize >= 0
    ensures var r := PaginateIntended(items, offset, 0, pageSize);
      r.Answer? && r.response.count == Min(pageSize, |items| - offset) &&
      r.response.logs == items[offset..offset + r.response.count]
  {
  }

  /** The file name `getLogFile` gives, as written. `names` are the variadic
      arguments: the first, when present and not empty, is the name asked
      for. The first occurrence of the logger's extension is removed from
      the name, and put back only for a name asked for. */
  function LogFileName(fileName: string, splitByDays: bool, names: seq<string>, date: string): (n: string)
    ensures var ext := Ext(fileName);
      (|names| > 0 && names[0] != "") ==> n == ReplaceFirst(names[0], ext, "") + ext
    ensures var ext := Ext(fileName);
      !(|names| > 0 && names[0] != "") && splitByDays ==> n == ReplaceFirst(fileName, ext, "") + "-" + date + ext
    ensures var ext := Ext(fileName);
      !(|names| > 0 && names[0] != "") && !splitByDays ==> n == ReplaceFirst(fileName, ext, "")
  {
    var ext := Ext(fileName);
    var asked := |names| > 0 && names[0] != "";
    var stem := ReplaceFirst(if asked then names[0] else fileName, ext, "");
    if asked then stem + ext
    else if splitByDays then stem + "-" + date + ext
    else stem
  }

  /** The file name evidently intended: every log file carries the
      logger's extension, so that the listing of log files finds it. */
  function LogFileNameIntended(fileName: string, splitByDays: bool, names: seq<string>, date: string): (n: string)
    ensures HasSuffix(n, Ext(fileName))
    ensures (|names| > 0 && names[0] != "") || splitByDays ==> n == LogFileName(fileName, splitByDays, names, date)
  {
    var ext := Ext(fileName);
    var asked := |names| > 0 && names[0] != "";
    var stem := ReplaceFirst(if asked then names[0] else fileName, ext, "");
    assert HasSuffix(stem + ext, ext) by {
      assert (stem + ext)[|stem + ext| - |ext|..] == ext;
    }
    assert HasSuffix(stem + "-" + date + ext, ext) by {
      assert (stem + "-" + date + ext)[|stem + "-" + date + ext| - |ext|..] == ext;
    }
    if asked then stem + ext
    else if splitByDays then stem + "-" + date + ext
    else stem + ext
  }

  /** With the default file name and no daily split, the logger writes to a
      file without extension. */
  lemma UndatedFileLosesExtension()
    ensures Ext("log.txt") == ".txt"
    ensures LogFileName("log.txt", false, [], "2024-01-02") == "log"
    ensures LogFileNameIntended("log.txt", false, [], "2024-01-02") == "log.txt"
  {
    DefaultExtension();
    DefaultStem();
  }

  lemma DefaultExtension()
    ensures Ext("log.txt") == ".txt"
  {
    assert ExtBefore("log.txt", 7) == ExtBefore("log.txt", 6) == ExtBefore("log.txt", 5) == ExtBefore("log.txt", 4);
    assert ExtBefore("log.txt", 4) == ".txt";
  }

  lemma DefaultStem()
    ensures ReplaceFirst("log.txt", ".txt", "") == "log"
  {
    assert "log.txt"[3..7] == ".txt";
    assert "log.txt"[0..4][0] == 'l' && "log.txt"[1..5][0] == 'o' && "log.txt"[2..6][0] == 'g';
    assert IndexFrom("log.txt", ".txt", 0) == IndexFrom("log.txt", ".txt", 1) == IndexFrom("log.txt", ".txt", 2)
      == IndexFrom("log.txt", ".txt", 3) == 3;
    assert OccursAt("log.txt", ".txt", 3);
    assert "log.txt"[..3] == "log" && "log.txt"[7..] == "";
  }

  class Logger {
    var fileName: string
    var splitByDays: bool
    var pageSize: int
    var rootPath: string

    /** `New`. */
    constructor ()
      ensures fileName == "log.txt" && pageSize == 20 && rootPath == "logs" && splitByDays
    {
      fileName := "log.txt";
      pageSize := 20;
      rootPath := "logs";
      splitByDays := true;
    }

    method SetSplitByDays(split: bool) returns (r: Logger)
      modifies this`splitByDays
      ensures splitByDays == split && r == this
    {
      splitByDays := split;
      r := this;
    }

    method SetFilename(name: string) returns (r: Logger)
      modifies this`fileName
      ensures fileName == name && r == this
    {
      fileName := name;
      r := this;
    }

    method SetPageSize(size: int) returns (r: Logger)
      modifies this`pageSize
      ensures pageSize == size && r == this
    {
      pageSize := size;
      r := this;
    }

    method SetRootPath(path: string) returns (r: Logger)
      modifies this`rootPath
      ensures rootPath == path && r == this
    {
      rootPath := path;
      r := this;
    }

    /** `getLogFile`: the file's name and its path under the root. */
    function GetLogFile(names: seq<string>, date: string): (f: LogFile)
      reads this
      ensures f.name == LogFileName(fileName, splitByDays, names, date)
      ensures f.path == JoinPath([rootPath, f.name])
    {
      var n := LogFileName(fileName, splitByDays, names, date);
      LogFile(n, JoinPath([rootPath, n]))
    }

    /** `Get`: a page of the entries of the log file. */
    function Get(offset: int, size: int, names: seq<string>, date: string, source: LogSource): (r: Outcome)
      reads this
      ensures r.Answer? ==> r.response.offset == offset && r.response.limit == pageSize
      ensures source.Unreadable? ==>
        r == Answer(Response(offset, pageSize, 0, 0, [], Some(FileNotExists(GetLogFile(names, date).name))))
      ensures source.Undecodable? ==>
        r == Answer(Response(offset, pageSize, 0, 0, [], Some(FileNotDecoded(GetLogFile(names, date).name))))
      ensures source.Decoded? ==> r == Paginate(source.items, offset, size, pageSize)
    {
      var file := GetLogFile(names, date).name;
      match source
      case Unreadable => Answer(Response(offset, pageSize, 0, 0, [], Some(FileNotExists(file))))
      case Undecodable => Answer(Response(offset, pageSize, 0, 0, [], Some(FileNotDecoded(file))))
      case Decoded(items) => Paginate(items, offset, size, pageSize)
    }
  }
}
