/** The debug log file (libs/class-log.php): its state queries, the entry
    reader `get_entries` with its in-place truncation, and clearing and
    deleting the file. The file is a sequence of lines as fgets returns
    them, an existence flag and a modification time. */
module Log {
  import opened Php
  import opened LogLine
  import Settings

  /** Whether `ls` is how fgets and file() split a file: non-empty lines,
      each holding a newline only as its last character, and each but the
      last ending in one. */
  predicate IsLineSplit(ls: seq<string>) {
    forall i :: 0 <= i < |ls| ==>
      && ls[i] != []
      && '\n' !in ls[i][..|ls[i]| - 1]
      && (i < |ls| - 1 ==> ls[i][|ls[i]| - 1] == '\n')
  }

  /** The bytes of a file split into `ls`. */
  function Concat(ls: seq<string>): string
    decreases |ls|
  {
    if ls == [] then "" else Concat(ls[..|ls| - 1]) + ls[|ls| - 1]
  }

  /** Splitting the lines anywhere splits the file's bytes there too. */
  lemma {:induction false} ConcatSplit(ls: seq<string>, k: nat)
    requires k <= |ls|
    ensures Concat(ls) == Concat(ls[..k]) + Concat(ls[k..])
    decreases |ls|
  {
    if k == |ls| {
      assert ls[..k] == ls;
      assert ls[k..] == [];
    } else {
      var front := ls[..|ls| - 1];
      ConcatSplit(front, k);
      assert front[..k] == ls[..k];
      assert front[k..] == ls[k..|ls| - 1];
      assert ls[k..][..|ls[k..]| - 1] == ls[k..|ls| - 1];
    }
  }

  /** A suffix of a line split is a line split. */
  lemma SuffixIsLineSplit(ls: seq<string>, k: nat)
    requires IsLineSplit(ls) && k <= |ls|
    ensures IsLineSplit(ls[k..])
  {
    forall i | 0 <= i < |ls[k..]|
      ensures ls[k..][i] != [] && '\n' !in ls[k..][i][..|ls[k..][i]| - 1]
      ensures i < |ls[k..]| - 1 ==> ls[k..][i][|ls[k..][i]| - 1] == '\n'
    {
      assert ls[k..][i] == ls[k + i];
    }
  }

  /** The log limit `get_entries` applies: `intval($settings['log_limit'])`
      when positive, 0 (no limit) otherwise. */
  function LogLimit(settings: map<string, Value>): (n: nat)
    ensures n > 0 <==> "log_limit" in settings && IntVal(settings["log_limit"]) > 0
    ensures n > 0 ==> n == IntVal(settings["log_limit"])
  {
    var v := if "log_limit" in settings then settings["log_limit"] else Null;
    if IntVal(v) > 0 then IntVal(v) else 0
  }

  /** The lines the truncation step keeps: with a limit and more lines than
      it, the last `limit + 1` of them; otherwise all of them. */
  function Retained(ls: seq<string>, limit: nat): (r: seq<string>)
    ensures |r| <= |ls| && r == ls[|ls| - |r|..]
    ensures limit > 0 && |ls| > limit ==> |r| == limit + 1
    ensures limit == 0 || |ls| <= limit ==> r == ls
  {
    if limit > 0 && |ls| > limit then ls[|ls| - limit - 1..] else ls
  }

  /** `array_slice($entries, -$limit, $limit)` when a limit applies: the
      last `limit` entries, or all of them when there are fewer. */
  function Window(es: seq<Entry>, limit: nat): (r: seq<Entry>)
    ensures |r| <= |es| && r == es[|es| - |r|..]
    ensures limit > 0 ==> |r| == if |es| < limit then |es| else limit
    ensures limit == 0 ==> r == es
  {
    if limit > 0 && |es| > limit then es[|es| - limit..] else es
  }

  /** `array_reverse`. */
  function Reverse<T>(s: seq<T>): (r: seq<T>)
    ensures |r| == |s|
    ensures forall i :: 0 <= i < |s| ==> r[i] == s[|s| - 1 - i]
    decreases |s|
  {
    if s == [] then [] else [s[|s| - 1]] + Reverse(s[..|s| - 1])
  }

  /** What `get_entries` returns for the entries it parsed: newest first,
      at most `limit` of them when a limit applies, and each one the entry
      that many places from the end of the file. */
  lemma NewestFirst(parsed: seq<Entry>, limit: nat)
    ensures var r := Reverse(Window(parsed, limit));
      && (limit > 0 ==> |r| <= limit)
      && |r| == (if limit > 0 && |parsed| > limit then limit else |parsed|)
      && forall i :: 0 <= i < |r| ==> r[i] == parsed[|parsed| - 1 - i]
  {
    var w := Window(parsed, limit);
    forall i | 0 <= i < |w|
      ensures Reverse(w)[i] == parsed[|parsed| - 1 - i]
    {
      assert w[|w| - 1 - i] == parsed[|parsed| - |w| + (|w| - 1 - i)];
    }
  }

  /** The truncation rewrites the file to a byte-for-byte tail of what it
      held, still split into lines the same way. */
  lemma RetainedIsTail(ls: seq<string>, limit: nat)
    requires IsLineSplit(ls)
    ensures IsLineSplit(Retained(ls, limit))
    ensures exists k :: 0 <= k <= |Concat(ls)| && Concat(Retained(ls, limit)) == Concat(ls)[k..]
  {
    var r := Retained(ls, limit);
    var k := |ls| - |r|;
    SuffixIsLineSplit(ls, k);
    ConcatSplit(ls, k);
    assert Concat(r) == Concat(ls)[|Concat(ls[..k])|..];
  }

  class LogFile {
    /** Whether the file exists. */
    var present: bool
    /** Its contents, split as fgets reads them. */
    var lines: seq<string>
    /** Its modification time, in seconds. */
    var mtime: int

    ghost predicate Valid()
      reads this
    {
      IsLineSplit(lines) && (!present ==> lines == [])
    }

    constructor (present: bool, lines: seq<string>, mtime: int)
      requires IsLineSplit(lines) && (!present ==> lines == [])
      ensures Valid()
      ensures this.present == present && this.lines == lines && this.mtime == mtime
    {
      this.present := present;
      this.lines := lines;
      this.mtime := mtime;
    }

    /** `get_contents()`: the file's bytes, or '' when it is missing. */
    function GetContents(): (r: string)
      reads this
      ensures !present ==> r == ""
      ensures present ==> r == Concat(lines)
    {
      if present then Concat(lines) else ""
    }

    /** `get_file_size()`: the size in bytes, or false when the file is
      missing. */
    function FileSize(): (r: Value)
      reads this
      ensures !present <==> r == Bool(false)
      ensures present ==> r == Int(|GetContents()|)
    {
      if present then Int(|Concat(lines)|) else Bool(false)
    }

    /** `is_smaller($size)`: whether the file exists and is smaller than
      `intval($size)` bytes. With the default argument '' it is always
      false, since no size is below 0. */
    function IsSmaller(size: Value): (r: bool)
      reads this
      ensures r <==> FileSize().Int? && FileSize().i < IntVal(size)
      ensures size == Str("") ==> !r
    {
      present && |Concat(lines)| < IntVal(size)
    }

    /** `last_modified()`: the modification time as `gmdate('c')` formats
      it (the formatter is `iso`), or false when the file is missing. */
    function LastModified(iso: int -> string): (r: Value)
      reads this
      ensures !present <==> r == Bool(false)
      ensures present ==> r == Str(iso(mtime))
    {
      if present then Str(iso(mtime)) else Bool(false)
    }

    /** `is_modified($timestamp)`: for an existing file, whether an integer
      differs from the modification time, or a string from that time as
      `gmdate('c')` formats it; false for anything else. */
    function IsModified(timestamp: Value, iso: int -> string): (r: bool)
      reads this
      ensures r ==> present && (timestamp.Int? || timestamp.Str?)
    {
      present && match timestamp
        case Int(t) => t != mtime
        case Str(s) => iso(mtime) != s
        case _ => false
    }

    /** A client that remembers what `last_modified()` or the raw time
      told it sees no modification until the file changes; an integer
      timestamp is a modification exactly when it differs, and so is a
      string one from what `last_modified()` reports. */
    lemma ModifiedRoundTrip(iso: int -> string, t: int, s: string)
      ensures !IsModified(LastModified(iso), iso)
      ensures !IsModified(Int(mtime), iso)
      ensures IsModified(Int(t), iso) <==> present && t != mtime
      ensures IsModified(Str(s), iso) <==> present && LastModified(iso) != Str(s)
      ensures !present ==> forall v :: !IsModified(v, iso)
    {
    }

    /** `get_recent_entries($timestamp)`: never implemented, it returns
      no entries whatever the timestamp. */
    function GetRecentEntries(timestamp: Value): (r: seq<Entry>)
      ensures r == []
    {
      []
    }

    /** `touch($file, $time)`: creates the file empty when missing, and
      sets its modification time. */
    method Touch(time: int)
      requires Valid()
      modifies this
      ensures Valid() && present
      ensures lines == old(lines) && mtime == time
    {
      present := true;
      mtime := time;
    }

    /** `file_put_contents($file, $lines)`: the file holds exactly the
      given lines, written now. */
    method PutContents(content: seq<string>, now: int)
      requires IsLineSplit(content)
      modifies this
      ensures Valid() && present
      ensures lines == content && mtime == now
    {
      present := true;
      lines := content;
      mtime := now;
    }

    /** `get_entries()` for the settings of `userId`. With a positive log
      limit the file is first cut down to its last `limit + 1` lines and
      its modification time put back; then every line is parsed, the last
      `limit` entries kept and returned newest first. A missing file is
      created and yields nothing. `ymd` normalises dates; `now` is the
      clock. */
    method GetEntries(store: Settings.Store, userId: int, ymd: string -> string, now: int)
      returns (entries: seq<Entry>)
      requires Valid()
      modifies this
      ensures Valid() && present
      ensures var limit := LogLimit(store.GetSettings(userId));
        if old(present) then
          && lines == Retained(old(lines), limit)
          && mtime == old(mtime)
          && entries == Reverse(Window(ParseAll(lines, ymd), limit))
        else
          lines == [] && mtime == now && entries == []
    {
      var limit := LogLimit(store.GetSettings(userId));
      var parsed: seq<Entry>;
      if present {
        if limit > 0 {
          TruncateToLimit(limit, now);
        }
        parsed := ReadEntries(ymd);
      } else {
        Touch(now);
        parsed := [];
      }
      if limit > 0 {
        parsed := Window(parsed, limit);
      }
      entries := Reverse(parsed);
    }

    /** The truncation step of `get_entries`: with more lines than the
      limit, the file is rewritten to its last `limit + 1` lines and
      touched back to its previous modification time. */
    method TruncateToLimit(limit: nat, now: int)
      requires Valid() && present && limit > 0
      modifies this
      ensures Valid() && present
      ensures lines == Retained(old(lines), limit) && mtime == old(mtime)
    {
      var lastModified := mtime;
      var content := lines;
      if |content| > limit {
        content := content[|content| - limit - 1..];
        SuffixIsLineSplit(lines, |lines| - limit - 1);
        PutContents(content, now);
        Touch(lastModified);
      }
    }

    /** The read loop of `get_entries`: one fgets call per line, each line
      contributing its entry, if any, in file order. */
    method ReadEntries(ymd: string -> string) returns (entries: seq<Entry>)
      ensures entries == ParseAll(lines, ymd)
    {
      var read := lines;
      entries := [];
      var i := 0;
      while i < |read|
        invariant 0 <= i <= |read|
        invariant entries == ParseAll(read[..i], ymd)
      {
        assert read[..i + 1] == read[..i] + [read[i]];
        ParseAllSnoc(read[..i], read[i], ymd);
        var entry := ParseLine(read[i], ymd);
        if entry.Some? {
          entries := entries + [entry.value];
        }
        i := i + 1;
      }
      assert read[..i] == read;
    }

    /** `clear()`: truncates the file through a handle opened for update.
      Opening fails when the file is missing or not `writable`, and the
      call then reports failure. Truncation sets the modification time
      only when the size changes. */
    method Clear(writable: bool, now: int) returns (ok: bool)
      requires Valid()
      modifies this
      ensures Valid()
      ensures ok <==> old(present) && writable
      ensures ok ==> present && lines == [] && mtime == (if old(lines) == [] then old(mtime) else now)
      ensures !ok ==> present == old(present) && lines == old(lines) && mtime == old(mtime)
    {
      if !present || !writable {
        return false;
      }
      if lines != [] {
        mtime := now;
      }
      lines := [];
      ok := true;
    }

    /** `delete()`: unlinks the file; fails when it is missing or the
      directory does not let it be `removable`. */
    method Delete(removable: bool) returns (ok: bool)
      requires Valid()
      modifies this
      ensures Valid()
      ensures ok <==> old(present) && removable
      ensures ok ==> !present && lines == []
      ensures !ok ==> present == old(present) && lines == old(lines)
      ensures mtime == old(mtime)
    {
      if !present || !removable {
        return false;
      }
      present := false;
      lines := [];
      ok := true;
    }
  }
}
