/** The log download route of libs/class-plugin.php (`add_dynamic_routes`):
    a logged-in, authorised user who requests /debugging/download/log/
    receives the log, either raw or as "smart" entries in which every
    distinct message appears once. */
module Plugin {
  import opened Php
  import opened LogLine
  import Log
  import Settings

  /** The path that serves the download. */
  const DownloadPath: string := "/debugging/download/log/"

  /** The request path as sanitised by the host (`sanitize_text_field` after
      `wp_unslash`), or the empty string when the server gives no URI. */
  function RequestPath(requestUri: Option<string>, sanitize: string -> string): string {
    match requestUri
    case None => ""
    case Some(uri) => sanitize(uri)
  }

  /** `trailingslashit(explode('?', $uri)[0])`: the part before the query
      string, with its trailing slashes and backslashes replaced by exactly
      one slash. */
  function UrlPath(uri: string): (r: string)
    ensures r != [] && r[|r| - 1] == '/'
    ensures '?' !in r
    ensures |r| >= 2 ==> r[|r| - 2] != '/' && r[|r| - 2] != '\\'
  {
    var path := Explode(uri, "?")[0];
    ExplodeFirstPiece(uri, '?');
    var trimmed := RTrim(path, {'/', '\\'});
    assert forall i :: 0 <= i < |trimmed| ==> trimmed[i] == path[i];
    trimmed + "/"
  }

  /** The query string does not take part in route matching. */
  lemma QueryIgnored(path: string, query: string)
    requires '?' !in path
    ensures UrlPath(path + "?" + query) == UrlPath(path)
  {
    assert "?" == ['?'];
    ExplodeAfterPiece(path, "?", query);
    NoCharNoContains(path, '?');
    ExplodeWithoutSep(path, "?");
  }

  /** A path without a query and without a trailing separator matches
      with or without one trailing slash. */
  lemma SlashForms(p: string)
    requires '?' !in p
    requires p != [] && p[|p| - 1] != '/' && p[|p| - 1] != '\\'
    ensures UrlPath(p) == p + "/"
    ensures UrlPath(p + "/") == p + "/"
  {
    assert "?" == ['?'];
    NoCharNoContains(p, '?');
    ExplodeWithoutSep(p, "?");
    NoCharNoContains(p + "/", '?');
    ExplodeWithoutSep(p + "/", "?");
    assert (p + "/")[..|p|] == p;
  }

  /** The download path matches whether or not it ends with a slash. */
  lemma DownloadPathForms(bare: string)
    requires bare == "/debugging/download/log"
    ensures UrlPath(bare) == DownloadPath
    ensures UrlPath(bare + "/") == DownloadPath
  {
    SlashForms(bare);
  }

  /** Whether a request is served by the download branch. */
  predicate Serves(loggedIn: bool, requestUri: Option<string>, sanitize: string -> string, canDownload: Value) {
    loggedIn && UrlPath(RequestPath(requestUri, sanitize)) == DownloadPath && Truthy(canDownload)
  }

  /** Without a request URI the path is `/`, so the download is never
      served. */
  lemma MissingUriNotServed(loggedIn: bool, sanitize: string -> string, canDownload: Value)
    ensures UrlPath(RequestPath(None, sanitize)) == "/"
    ensures !Serves(loggedIn, None, sanitize, canDownload)
  {
    assert Explode("", "?") == [""];
    assert RTrim("", {'/', '\\'}) == "";
  }

  /** A request for the download path, with or without its trailing slash
      and with any query string, is served exactly to a logged-in user the
      filter allows. */
  lemma DownloadRequestServed(bare: string, query: string, uri: string, loggedIn: bool,
                              sanitize: string -> string, canDownload: Value)
    requires bare == "/debugging/download/log"
    requires sanitize(uri) in [bare, bare + "/", bare + "?" + query, bare + "/?" + query]
    ensures Serves(loggedIn, Some(uri), sanitize, canDownload) <==> loggedIn && Truthy(canDownload)
  {
    DownloadForms(bare, query, sanitize(uri));
    assert RequestPath(Some(uri), sanitize) == sanitize(uri);
  }

  lemma DownloadForms(bare: string, query: string, path: string)
    requires bare == "/debugging/download/log"
    requires path in [bare, bare + "/", bare + "?" + query, bare + "/?" + query]
    ensures UrlPath(path) == DownloadPath
  {
    DownloadPathForms(bare);
    if path == bare + "?" + query {
      QueryIgnored(bare, query);
    } else if path == bare + "/?" + query {
      assert path == (bare + "/") + "?" + query;
      QueryIgnored(bare + "/", query);
    }
  }

  /** Whether the user's settings ask for the smart download:
      `isset($config['truncate_download']) && $config['truncate_download']`. */
  predicate SmartDownload(config: map<string, Value>) {
    "truncate_download" in config && Truthy(config["truncate_download"])
  }

  /** The HTML line written for one entry, before it is filtered. */
  function FormatEntry(e: Entry): string {
    "[" + e.date + " " + e.time + " " + e.timezone + "] " + e.message + "<br/>"
  }

  /** With nothing stored the smart download is on: `truncate_download`
      defaults to 1. */
  lemma SmartByDefault(userId: int)
    ensures SmartDownload(Settings.EffectiveSettings(Bool(false), Bool(false), userId))
  {
    Settings.DefaultsWhenNothingStored(userId);
  }

  /** The written line is the entry put back in the log's own
      `[date time zone] message` form, followed by a line break tag. The
      message is split as `m + tail` with the final newline, if any, as the
      tail, and a well-formed line matches the log format again. */
  lemma FormatEntryInLogFormat(e: Entry, m: string, tail: string)
    requires e.message == m + tail && (tail == "" || tail == "\n")
    ensures var c := Captures(e.date, e.time, e.timezone, m, tail);
      FormatEntry(e) == Assemble(c) + "<br/>"
      && (WellFormed(c) ==> Match(Assemble(c)) == Some(c))
  {
    var c := Captures(e.date, e.time, e.timezone, m, tail);
    assert "] " == "]" + " ";
    Regroup("[", " ", "]", "<br/>", e.date, e.time, e.timezone, m, tail);
    if WellFormed(c) {
      MatchComplete(c);
    }
  }

  lemma Regroup(open: string, sp: string, close: string, br: string,
                d: string, t: string, z: string, m: string, tail: string)
    ensures open + d + sp + t + sp + z + (close + sp) + (m + tail) + br
         == open + (d + sp + (t + sp + (z + close + (sp + m + tail)))) + br
  {
  }

  /** The messages of a sequence of entries. */
  function MessagesOf(es: seq<Entry>): set<string> {
    set i | 0 <= i < |es| :: es[i].message
  }

  /** The entries whose message does not occur earlier in the sequence, in
      their original order. */
  function FirstOccurrences(es: seq<Entry>): (r: seq<Entry>)
    ensures |r| <= |es|
    decreases |es|
  {
    if es == [] then []
    else
      var front := es[..|es| - 1];
      var e := es[|es| - 1];
      if e.message in MessagesOf(front) then FirstOccurrences(front)
      else FirstOccurrences(front) + [e]
  }

  /** The index of the first entry carrying message `m`. */
  function FirstIndex(es: seq<Entry>, m: string): (r: nat)
    requires m in MessagesOf(es)
    ensures r < |es| && es[r].message == m
    ensures forall j :: 0 <= j < r ==> es[j].message != m
    decreases |es|
  {
    var front := es[..|es| - 1];
    if m in MessagesOf(front) then
      var k := FirstIndex(front, m);
      assert es[k] == front[k];
      k
    else
      assert es[|es| - 1].message == m by {
        var i :| 0 <= i < |es| && es[i].message == m;
        assert i == |es| - 1;
      }
      assert forall j :: 0 <= j < |es| - 1 ==> es[j] == front[j];
      |es| - 1
  }

  /** The filtered output lines for a sequence of entries. */
  function Emitted(es: seq<Entry>, kses: string -> string): (r: seq<string>)
    ensures |r| == |es|
    ensures forall i :: 0 <= i < |es| ==> r[i] == kses(FormatEntry(es[i]))
  {
    seq(|es|, i requires 0 <= i < |es| => kses(FormatEntry(es[i])))
  }

  lemma EmittedSnoc(es: seq<Entry>, e: Entry, kses: string -> string)
    ensures Emitted(es + [e], kses) == Emitted(es, kses) + [kses(FormatEntry(e))]
  {
  }

  lemma MessagesSnoc(es: seq<Entry>, e: Entry)
    ensures MessagesOf(es + [e]) == MessagesOf(es) + {e.message}
  {
    var s := es + [e];
    assert s[|es|].message == e.message;
    forall m | m in MessagesOf(s) ensures m in MessagesOf(es) + {e.message} {
      var i :| 0 <= i < |s| && s[i].message == m;
      if i < |es| { assert es[i] == s[i]; }
    }
    forall m | m in MessagesOf(es) ensures m in MessagesOf(s) {
      var i :| 0 <= i < |es| && es[i].message == m;
      assert s[i] == es[i];
    }
  }

  /** The smart download loop: every entry whose message (through its hash
      key) has not been seen yet is formatted, filtered and written. The
      lines written are exactly those of the first occurrences. */
  method SmartLog(entries: seq<Entry>, kses: string -> string) returns (out: seq<string>)
    ensures out == Emitted(FirstOccurrences(entries), kses)
  {
    var found: map<string, bool> := map[];
    out := [];
    var i := 0;
    while i < |entries|
      invariant 0 <= i <= |entries|
      invariant found.Keys == MessagesOf(entries[..i])
      invariant out == Emitted(FirstOccurrences(entries[..i]), kses)
    {
      var entry := entries[i];
      var key := entry.message;
      assert entries[..i + 1] == entries[..i] + [entry];
      assert entries[..i + 1][..i] == entries[..i];
      MessagesSnoc(entries[..i], entry);
      if key !in found {
        found := found[key := true];
        EmittedSnoc(FirstOccurrences(entries[..i]), entry, kses);
        out := out + [kses(FormatEntry(entry))];
      }
      i := i + 1;
    }
    assert entries[..i] == entries;
  }

  lemma FirstOccurrencesSnoc(front: seq<Entry>, e: Entry)
    ensures FirstOccurrences(front + [e])
         == if e.message in MessagesOf(front) then FirstOccurrences(front)
            else FirstOccurrences(front) + [e]
  {
    assert (front + [e])[..|front|] == front;
  }

  /** Appending an entry moves no first occurrence, and gives a new message
      its first occurrence at the end. */
  lemma FirstIndexSnoc(front: seq<Entry>, e: Entry)
    ensures MessagesOf(front + [e]) == MessagesOf(front) + {e.message}
    ensures forall m :: m in MessagesOf(front) ==> FirstIndex(front + [e], m) == FirstIndex(front, m)
    ensures e.message !in MessagesOf(front) ==> FirstIndex(front + [e], e.message) == |front|
  {
    MessagesSnoc(front, e);
    assert (front + [e])[..|front|] == front;
  }

  /** Every message of the log is written. */
  lemma {:induction false} KeptCoverAll(es: seq<Entry>)
    ensures MessagesOf(FirstOccurrences(es)) == MessagesOf(es)
    decreases |es|
  {
    if es != [] {
      var front := es[..|es| - 1];
      var e := es[|es| - 1];
      assert es == front + [e];
      KeptCoverAll(front);
      FirstOccurrencesSnoc(front, e);
      MessagesSnoc(front, e);
      MessagesSnoc(FirstOccurrences(front), e);
    }
  }

  /** No message is written twice. */
  lemma {:induction false} KeptDistinct(es: seq<Entry>)
    ensures forall i, j :: 0 <= i < j < |FirstOccurrences(es)| ==>
      FirstOccurrences(es)[i].message != FirstOccurrences(es)[j].message
    decreases |es|
  {
    if es != [] {
      var front := es[..|es| - 1];
      var e := es[|es| - 1];
      assert es == front + [e];
      KeptDistinct(front);
      KeptCoverAll(front);
      FirstOccurrencesSnoc(front, e);
      var kept := FirstOccurrences(front);
      if e.message !in MessagesOf(front) {
        forall i | 0 <= i < |kept| ensures kept[i].message != e.message {
          assert kept[i].message in MessagesOf(kept);
        }
      }
    }
  }

  /** Each written entry is the first (most recent, in the newest-first
      order of the entries) entry carrying its message. */
  lemma {:induction false} KeptAreFirst(es: seq<Entry>)
    ensures forall i :: 0 <= i < |FirstOccurrences(es)| ==>
      && FirstOccurrences(es)[i].message in MessagesOf(es)
      && FirstOccurrences(es)[i] == es[FirstIndex(es, FirstOccurrences(es)[i].message)]
    decreases |es|
  {
    if es != [] {
      var front := es[..|es| - 1];
      var e := es[|es| - 1];
      assert es == front + [e];
      KeptAreFirst(front);
      FirstOccurrencesSnoc(front, e);
      FirstIndexSnoc(front, e);
      var kept := FirstOccurrences(front);
      forall i | 0 <= i < |kept|
        ensures es[FirstIndex(es, kept[i].message)] == front[FirstIndex(front, kept[i].message)]
      {
      }
    }
  }

  /** The written entries keep the order of their first occurrences. */
  lemma {:induction false} KeptInOrder(es: seq<Entry>)
    ensures forall i :: 0 <= i < |FirstOccurrences(es)| ==>
      FirstOccurrences(es)[i].message in MessagesOf(es)
    ensures forall i, j :: 0 <= i < j < |FirstOccurrences(es)| ==>
      FirstIndex(es, FirstOccurrences(es)[i].message) < FirstIndex(es, FirstOccurrences(es)[j].message)
    decreases |es|
  {
    KeptCoverAll(es);
    var r := FirstOccurrences(es);
    forall i | 0 <= i < |r| ensures r[i].message in MessagesOf(es) {
      assert r[i].message in MessagesOf(r);
    }
    if es != [] {
      var front := es[..|es| - 1];
      var e := es[|es| - 1];
      assert es == front + [e];
      KeptInOrder(front);
      FirstOccurrencesSnoc(front, e);
      FirstIndexSnoc(front, e);
      var kept := FirstOccurrences(front);
      forall i, j | 0 <= i < j < |r|
        ensures FirstIndex(es, r[i].message) < FirstIndex(es, r[j].message)
      {
        assert r[i] == kept[i];
        if j < |kept| {
          assert r[j] == kept[j];
        } else {
          assert r[j] == e;
        }
      }
    }
  }

  /** The download response: nothing (the request falls through to the
      rest of the site) or the lines written before the request exits. */
  datatype Response = NotServed | Served(output: seq<string>)

  /** The download branch of `add_dynamic_routes`. The request is served
      to a logged-in user whose request path is the download path and whom
      the `kwlm_can_download_log` filter allows (`canDownload`, by default
      the user's authorisation). With the smart download setting the log's
      entries are read (which may truncate the file) and their first
      occurrences written; otherwise the trimmed raw contents are written
      and the file is left alone. `sanitize` and `kses` stand for the host's
      sanitising filters, `ymd` and `now` for the date formatter and the
      clock. */
  method AddDynamicRoutes(log: Log.LogFile, store: Settings.Store, loggedIn: bool, userId: int,
                          requestUri: Option<string>, sanitize: string -> string, canDownload: Value,
                          kses: string -> string, ymd: string -> string, now: int)
    returns (response: Response)
    requires log.Valid()
    modifies log
    ensures log.Valid()
    ensures response.Served? <==> Serves(loggedIn, requestUri, sanitize, canDownload)
    ensures response.NotServed? ==> unchanged(log)
    ensures response.Served? ==> DownloadOutput(log, store, userId, kses, ymd, now, response.output)
  {
    var path := UrlPath(RequestPath(requestUri, sanitize));
    if !loggedIn || path != DownloadPath || !Truthy(canDownload) {
      return NotServed;
    }
    var output := Download(log, store, userId, kses, ymd, now);
    response := Served(output);
  }

  /** What the served request writes: the trimmed raw contents of the
      untouched file, or, with the smart download setting, the first
      occurrences among the newest-first entries of the file as
      `get_entries` left it: an existing file cut to its last lines with its
      modification time restored, a missing one created empty at `now`. */
  twostate predicate DownloadOutput(log: Log.LogFile, store: Settings.Store, userId: int,
                                    kses: string -> string, ymd: string -> string, now: int,
                                    output: seq<string>)
    reads log, store
  {
    var config := store.GetSettings(userId);
    var limit := Log.LogLimit(config);
    if SmartDownload(config) then
      && log.present
      && (if old(log.present) then log.lines == Log.Retained(old(log.lines), limit) && log.mtime == old(log.mtime)
          else log.lines == [] && log.mtime == now)
      && output == Emitted(FirstOccurrences(Log.Reverse(Log.Window(ParseAll(log.lines, ymd), limit))), kses)
    else
      && unchanged(log)
      && output == [kses(Trim(log.GetContents()))]
  }

  /** The served branch of the route, after the headers are sent. */
  method Download(log: Log.LogFile, store: Settings.Store, userId: int,
                  kses: string -> string, ymd: string -> string, now: int)
    returns (output: seq<string>)
    requires log.Valid()
    modifies log
    ensures log.Valid()
    ensures DownloadOutput(log, store, userId, kses, ymd, now, output)
  {
    var config := store.GetSettings(userId);
    if SmartDownload(config) {
      var entries := log.GetEntries(store, userId, ymd, now);
      output := SmartLog(entries, kses);
    } else {
      output := [kses(Trim(log.GetContents()))];
    }
  }
}
