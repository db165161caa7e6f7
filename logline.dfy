/** One line of debug.log turned into an entry (libs/class-log.php,
    the body of the read loop in `get_entries`). A line is first rewritten
    with the pattern `^\[([0-9a-zA-Z-]+) ([0-9:]+) ([a-zA-Z_\/]+)\] (.*)$`
    into `date$!$time$!$timezone$!$message`, then split on `$!$`; four or
    more pieces make an entry. Lines keep the trailing newline fgets leaves
    on them. */
module LogLine {
  import opened Php

  /** The separator the rewrite puts between the captured fields. */
  const Sep: string := "$!$"

  predicate IsLetter(c: char) { 'a' <= c <= 'z' || 'A' <= c <= 'Z' }

  /** `[0-9a-zA-Z-]`, the characters of the date field. */
  predicate IsDateChar(c: char) { IsDigit(c) || IsLetter(c) || c == '-' }

  /** `[0-9:]`, the characters of the time field. */
  predicate IsTimeChar(c: char) { IsDigit(c) || c == ':' }

  /** `[a-zA-Z_\/]`, the characters of the timezone field. */
  predicate IsZoneChar(c: char) { IsLetter(c) || c == '_' || c == '/' }

  /** The three character classes of the pattern's fields. */
  datatype Class = DateClass | TimeClass | ZoneClass

  predicate In(k: Class, c: char) {
    match k
    case DateClass => IsDateChar(c)
    case TimeClass => IsTimeChar(c)
    case ZoneClass => IsZoneChar(c)
  }

  /** A non-empty string of characters of class `k`, as `[...]+` matches. */
  predicate IsRun(s: string, k: Class) {
    |s| > 0 && forall i :: 0 <= i < |s| ==> In(k, s[i])
  }

  /** Length of the longest prefix of `s` whose characters are of class `k`. */
  function Span(s: string, k: Class): (n: nat)
    ensures n <= |s|
    ensures forall i :: 0 <= i < n ==> In(k, s[i])
    ensures n < |s| ==> !In(k, s[n])
    decreases |s|
  {
    if s != [] && In(k, s[0]) then 1 + Span(s[1..], k) else 0
  }

  /** The four capture groups of a match, and the final newline the match
      stops before (`$` matches ahead of a trailing newline). */
  datatype Captures = Captures(date: string, time: string, zone: string, message: string, tail: string)

  /** The line the captures describe,
      `[date time zone] message` followed by the tail, built from the back. */
  function Assemble(c: Captures): string {
    "[" + DateText(c)
  }

  function DateText(c: Captures): string { c.date + " " + TimeText(c) }
  function TimeText(c: Captures): string { c.time + " " + ZoneText(c) }
  function ZoneText(c: Captures): string { c.zone + "]" + RestText(c) }
  function RestText(c: Captures): string { " " + c.message + c.tail }

  /** What the pattern demands of its captures: each field a non-empty run
      of its character class, a message free of newlines (`.` does not match
      one), and at most one newline after it. */
  predicate WellFormed(c: Captures) {
    && IsRun(c.date, DateClass)
    && IsRun(c.time, TimeClass)
    && IsRun(c.zone, ZoneClass)
    && '\n' !in c.message
    && (c.tail == "" || c.tail == "\n")
  }

  /** A run of class `p` followed by the character `stop`: the run and
      what follows the stop character. */
  function Field(s: string, k: Class, stop: char): Option<(string, string)> {
    var n := Span(s, k);
    if n == 0 || n == |s| || s[n] != stop then None else Some((s[..n], s[n + 1..]))
  }

  lemma FieldSound(s: string, k: Class, stop: char)
    requires Field(s, k, stop).Some?
    ensures var (f, r) := Field(s, k, stop).value;
      IsRun(f, k) && s == f + [stop] + r
  {
    var n := Span(s, k);
    assert s == s[..n] + [stop] + s[n + 1..];
  }

  lemma {:induction false} FieldComplete(f: string, stop: char, r: string, k: Class)
    requires IsRun(f, k) && !In(k, stop)
    ensures Field(f + [stop] + r, k, stop) == Some((f, r))
  {
    var s := f + [stop] + r;
    SpanOf(f, stop, r, k);
    assert s[..|f|] == f && s[|f| + 1..] == r;
  }

  /** The message part of a match: the rest of the line, less one final
      newline; None when a newline occurs anywhere else. */
  function SplitTail(rest: string): Option<(string, string)> {
    if '\n' !in rest then Some((rest, ""))
    else if rest[|rest| - 1] == '\n' && '\n' !in rest[..|rest| - 1] then Some((rest[..|rest| - 1], "\n"))
    else None
  }

  lemma SplitTailSound(rest: string)
    requires SplitTail(rest).Some?
    ensures var (m, t) := SplitTail(rest).value;
      '\n' !in m && (t == "" || t == "\n") && rest == m + t
  {
  }

  lemma SplitTailComplete(m: string, t: string)
    requires '\n' !in m && (t == "" || t == "\n")
    ensures SplitTail(m + t) == Some((m, t))
  {
    if t == "\n" {
      assert (m + t)[..|m + t| - 1] == m;
    } else {
      assert m + t == m;
    }
  }

  /** The pattern matched left to right, one field at a time. Each field
      class excludes the character that ends the field, so at most one match
      exists. */
  function Match(line: string): Option<Captures> {
    if line == [] || line[0] != '[' then None
    else match Field(line[1..], DateClass, ' ')
      case None => None
      case Some(dr) => MatchTime(dr.1, dr.0)
  }

  function MatchTime(r1: string, d: string): Option<Captures> {
    match Field(r1, TimeClass, ' ')
    case None => None
    case Some(tr) => MatchZone(tr.1, d, tr.0)
  }

  function MatchZone(r2: string, d: string, t: string): Option<Captures> {
    match Field(r2, ZoneClass, ']')
    case None => None
    case Some(zr) => MatchRest(zr.1, d, t, zr.0)
  }

  function MatchRest(r3: string, d: string, t: string, z: string): Option<Captures> {
    if r3 == [] || r3[0] != ' ' then None
    else match SplitTail(r3[1..])
      case None => None
      case Some(mt) => Some(Captures(d, t, z, mt.0, mt.1))
  }

  /** A run of one class, then a character outside it, then anything: the
      span stops exactly at that character. */
  lemma {:induction false} SpanOf(x: string, c: char, y: string, k: Class)
    requires forall i :: 0 <= i < |x| ==> In(k, x[i])
    requires !In(k, c)
    ensures Span(x + [c] + y, k) == |x|
    decreases |x|
  {
    if x != [] {
      assert (x + [c] + y)[1..] == x[1..] + [c] + y;
      SpanOf(x[1..], c, y, k);
    }
  }

  lemma RestSound(r3: string, d: string, t: string, z: string)
    requires MatchRest(r3, d, t, z).Some?
    ensures var c := MatchRest(r3, d, t, z).value;
      && c.date == d && c.time == t && c.zone == z && RestText(c) == r3
      && '\n' !in c.message && (c.tail == "" || c.tail == "\n")
  {
    SplitTailSound(r3[1..]);
    assert r3 == " " + r3[1..];
  }

  lemma ZoneSound(r2: string, d: string, t: string)
    requires MatchZone(r2, d, t).Some?
    ensures var c := MatchZone(r2, d, t).value;
      && c.date == d && c.time == t && ZoneText(c) == r2 && IsRun(c.zone, ZoneClass)
      && '\n' !in c.message && (c.tail == "" || c.tail == "\n")
  {
    FieldSound(r2, ZoneClass, ']');
    var zr := Field(r2, ZoneClass, ']').value;
    RestSound(zr.1, d, t, zr.0);
  }

  lemma TimeSound(r1: string, d: string)
    requires MatchTime(r1, d).Some?
    ensures var c := MatchTime(r1, d).value;
      && c.date == d && TimeText(c) == r1 && IsRun(c.time, TimeClass) && IsRun(c.zone, ZoneClass)
      && '\n' !in c.message && (c.tail == "" || c.tail == "\n")
  {
    FieldSound(r1, TimeClass, ' ');
    var tr := Field(r1, TimeClass, ' ').value;
    ZoneSound(tr.1, d, tr.0);
  }

  /** Whatever the recogniser returns is a match: well-formed captures that
      reassemble to the line. */
  lemma MatchSound(line: string)
    requires Match(line).Some?
    ensures WellFormed(Match(line).value) && Assemble(Match(line).value) == line
  {
    FieldSound(line[1..], DateClass, ' ');
    var dr := Field(line[1..], DateClass, ' ').value;
    TimeSound(dr.1, dr.0);
    var c := MatchTime(dr.1, dr.0).value;
    assert Match(line) == Some(c);
    Glue(dr.0, dr.1);
    assert line[1..] == DateText(c);
    Uncons(line);
  }

  lemma Glue(a: string, b: string)
    ensures a + " " + b == a + [' '] + b
  {
  }

  lemma Uncons(line: string)
    requires line != []
    ensures [line[0]] + line[1..] == line
  {
  }

  lemma RestComplete(c: Captures)
    requires '\n' !in c.message && (c.tail == "" || c.tail == "\n")
    ensures MatchRest(RestText(c), c.date, c.time, c.zone) == Some(c)
  {
    assert RestText(c)[1..] == c.message + c.tail;
    SplitTailComplete(c.message, c.tail);
  }

  lemma ZoneComplete(c: Captures)
    requires IsRun(c.zone, ZoneClass) && '\n' !in c.message && (c.tail == "" || c.tail == "\n")
    ensures MatchZone(ZoneText(c), c.date, c.time) == Some(c)
  {
    FieldComplete(c.zone, ']', RestText(c), ZoneClass);
    RestComplete(c);
  }

  lemma TimeComplete(c: Captures)
    requires IsRun(c.time, TimeClass) && IsRun(c.zone, ZoneClass)
    requires '\n' !in c.message && (c.tail == "" || c.tail == "\n")
    ensures MatchTime(TimeText(c), c.date) == Some(c)
  {
    FieldComplete(c.time, ' ', ZoneText(c), TimeClass);
    ZoneComplete(c);
  }

  /** Every match is found: well-formed captures of a line are exactly what
      the recogniser returns for it. Together with MatchSound, Match decides
      the pattern and its captures are unique. */
  lemma MatchComplete(c: Captures)
    requires WellFormed(c)
    ensures Match(Assemble(c)) == Some(c)
  {
    assert Assemble(c)[1..] == DateText(c);
    FieldComplete(c.date, ' ', TimeText(c), DateClass);
    TimeComplete(c);
  }

  /** The rewrite `preg_replace` performs: on a match, the captures joined
      by the separator, followed by the newline the match left alone;
      otherwise the line unchanged. */
  function Rewrite(line: string): string {
    match Match(line)
    case None => line
    case Some(c) => Join(c.date, c.time, c.zone, c.message + c.tail)
  }

  /** On a line in the log format the rewrite turns `[date time zone] `
      into the three fields separated by `$!$`, the message following. */
  lemma RewriteFormatted(c: Captures)
    requires WellFormed(c)
    ensures Rewrite(Assemble(c)) == Join(c.date, c.time, c.zone, c.message + c.tail)
  {
    MatchComplete(c);
  }

  /** Four fields joined by the separator. */
  function Join(a: string, b: string, c: string, d: string): string {
    a + Sep + (b + Sep + (c + Sep + d))
  }

  /** A log entry as `get_entries` builds it. */
  datatype Entry = Entry(date: string, time: string, timezone: string, message: string)

  /** `stripslashes(str_replace('\\', '/', $m))`: once every backslash has
      become a slash, stripslashes has nothing left to remove, so the message
      is the input with its backslashes turned into slashes. */
  function CleanMessage(m: string): (r: string)
    ensures r == ReplaceChar(m, '\\', '/')
    ensures '\\' !in r
  {
    StripSlashes(ReplaceChar(m, '\\', '/'))
  }

  /** One iteration of the read loop: the entry a line contributes, if
      any. `ymd` stands for `gmdate('Y-m-d', strtotime($date))`. */
  function ParseLine(line: string, ymd: string -> string): (r: Option<Entry>)
    ensures r.Some? ==> '\\' !in r.value.message
  {
    var parts := Explode(Rewrite(line), Sep);
    if |parts| >= 4 then Some(Entry(ymd(parts[0]), parts[1], parts[2], CleanMessage(parts[3])))
    else None
  }

  /** The separator never occurs inside a field: no field class holds `$`. */
  lemma FieldsWithoutDollar(c: Captures)
    requires WellFormed(c)
    ensures '$' !in c.date && '$' !in c.time && '$' !in c.zone
  {
  }

  /** No occurrence of the separator starts inside `x` when the separator
      follows it: `explode` then cuts exactly after `x`. */
  predicate NoSepStartsIn(x: string) {
    !Contains(x + Sep[..|Sep| - 1], Sep)
  }

  /** Four pieces, none of the first three holding the start of a
      separator, split back apart. */
  lemma ExplodeJoin(a: string, b: string, c: string, d: string)
    requires NoSepStartsIn(a) && NoSepStartsIn(b) && NoSepStartsIn(c)
    ensures Explode(Join(a, b, c, d), Sep) == [a, b, c] + Explode(d, Sep)
  {
    SplitThree(a, b, c, d, Sep);
  }

  lemma SplitThree(a: string, b: string, c: string, d: string, sep: string)
    requires sep != ""
    requires !Contains(a + sep[..|sep| - 1], sep) && !Contains(b + sep[..|sep| - 1], sep)
    requires !Contains(c + sep[..|sep| - 1], sep)
    ensures Explode(a + sep + (b + sep + (c + sep + d)), sep) == [a, b, c] + Explode(d, sep)
  {
    ExplodeAtFirst(a, sep, b + sep + (c + sep + d));
    ExplodeAtFirst(b, sep, c + sep + d);
    ExplodeAtFirst(c, sep, d);
  }

  /** The pieces a line in the log format splits into: the three fields,
      then the pieces of the message. */
  lemma MatchedPieces(c: Captures)
    requires WellFormed(c)
    ensures Explode(Rewrite(Assemble(c)), Sep) == [c.date, c.time, c.zone] + Explode(c.message + c.tail, Sep)
  {
    MatchComplete(c);
    FieldsWithoutDollar(c);
    NoHeadNoContains(c.date, Sep);
    NoHeadNoContains(c.time, Sep);
    NoHeadNoContains(c.zone, Sep);
    ExplodeJoin(c.date, c.time, c.zone, c.message + c.tail);
  }

  /** A line in the log format whose message has no separator in it gives
      exactly one entry: the normalised date, the time and timezone as
      written, and the cleaned message (which keeps the line's newline). */
  lemma MatchedLineEntry(c: Captures, ymd: string -> string)
    requires WellFormed(c)
    requires !Contains(c.message + c.tail, Sep)
    ensures ParseLine(Assemble(c), ymd)
         == Some(Entry(ymd(c.date), c.time, c.zone, CleanMessage(c.message + c.tail)))
  {
    MatchedPieces(c);
    ExplodeWithoutSep(c.message + c.tail, Sep);
  }

  /** A message that contains the separator is cut at its first
      occurrence: the entry keeps only the part before it. */
  lemma MessageCutAtSep(c: Captures, before: string, after: string, ymd: string -> string)
    requires WellFormed(c)
    requires NoSepStartsIn(before) && c.message + c.tail == before + Sep + after
    ensures ParseLine(Assemble(c), ymd)
         == Some(Entry(ymd(c.date), c.time, c.zone, CleanMessage(before)))
  {
    MatchedPieces(c);
    ExplodeAtFirst(before, Sep, after);
  }

  /** A line that is not in the log format but holds the separator three
      times still yields an entry, built from its pieces: the message is
      what follows the third separator, up to a fourth one. */
  lemma UnmatchedLineWithSeparators(a: string, b: string, c: string, d: string, ymd: string -> string)
    requires Match(Join(a, b, c, d)).None?
    requires NoSepStartsIn(a) && NoSepStartsIn(b) && NoSepStartsIn(c)
    ensures ParseLine(Join(a, b, c, d), ymd) == Some(Entry(ymd(a), b, c, CleanMessage(Explode(d, Sep)[0])))
  {
    ExplodeJoin(a, b, c, d);
  }

  /** A line that is neither in the log format nor holds the separator
      yields no entry. */
  lemma UnmatchedLineSkipped(line: string, ymd: string -> string)
    requires Match(line).None? && !Contains(line, Sep)
    ensures ParseLine(line, ymd) == None
  {
    ExplodeWithoutSep(line, Sep);
  }

  /** The entries of a sequence of lines, in file order. */
  function ParseAll(lines: seq<string>, ymd: string -> string): (es: seq<Entry>)
    ensures |es| <= |lines|
    ensures forall i :: 0 <= i < |es| ==> '\\' !in es[i].message
    decreases |lines|
  {
    if lines == [] then []
    else
      var front := ParseAll(lines[..|lines| - 1], ymd);
      match ParseLine(lines[|lines| - 1], ymd)
      case None => front
      case Some(e) => front + [e]
  }

  /** Reading one more line adds that line's entry, if any, at the end. */
  lemma ParseAllSnoc(lines: seq<string>, line: string, ymd: string -> string)
    ensures ParseAll(lines + [line], ymd)
         == ParseAll(lines, ymd) + (match ParseLine(line, ymd) case Some(e) => [e] case None => [])
  {
    assert (lines + [line])[..|lines|] == lines;
  }

  /** Parsing distributes over concatenation of line sequences. */
  lemma {:induction false} ParseAllAppend(a: seq<string>, b: seq<string>, ymd: string -> string)
    ensures ParseAll(a + b, ymd) == ParseAll(a, ymd) + ParseAll(b, ymd)
    decreases |b|
  {
    if b != [] {
      var b' := b[..|b| - 1];
      assert (a + b)[..|a + b| - 1] == a + b';
      ParseAllAppend(a, b', ymd);
    } else {
      assert a + b == a;
    }
  }
}
