# KolorWeb Log Manager — a Dafny model of its core

KolorWeb Log Manager is a WordPress plugin for reading and managing
WordPress' `debug.log`. This project models its core in Dafny and proves
properties of that model:

- **the log file** (`libs/class-log.php`): state queries on the file (size, modification
  time, contents), and `get_entries`. When the file holds more lines
  than the user's `log_limit`, `get_entries` cuts it down to its last
  `log_limit + 1` lines and restores its modification time. It then parses
  every line in the `[date time zone] message` format into an entry and
  returns the newest `log_limit` entries first. The model also covers clearing and deleting the file.
- **the settings** (`libs/class-settings.php`): the global and per-user
  default tables, `merge_settings`, and the precedence of user over
  global settings in `get_settings`. It also covers the two updates that
  persist settings in the WordPress option and user-meta stores, and the
  recursive sanitiser `clean_settings`.
- **the debug switch** (`libs/class-config.php`): `debug_enabled` and
  `maybe_bool_to_string`. It also covers `update_debug_status`, which rewrites
  `WP_DEBUG`, `WP_DEBUG_LOG` and `WP_DEBUG_DISPLAY` through
  WPConfigTransformer and stops at the first exception.
- **the log download route** (`libs/class-plugin.php`, the download
  branch of `add_dynamic_routes`): path matching, then one of two outputs.
  The "smart" output writes each distinct message once, by its most recent
  occurrence. The other output writes the trimmed raw contents.
- **the autoloader** (`autoload.php`): class name to file path.

Files, one module each:

- `php.dfy` (`Php`): the PHP runtime semantics the core relies on:
  - PHP values and truthiness;
  - `intval` (the numeric prefix of a string, with fraction and exponent), `trim`, `rtrim`, `strtolower`;
  - one-character `str_replace`, `stripslashes`, `explode`, `implode`.
- `autoload.dfy` (`Autoload`).
- `settings.dfy` (`Settings`): the `Store` class holds the option and
  user-meta tables.
- `config.dfy` (`Config`): the `ConfigTransformer` class stands for the
  foreign transformer.
- `logline.dfy` (`LogLine`): the line pattern as a recogniser with its
  soundness and completeness proofs, and the parse of one line and of a
  file's lines.
- `log.dfy` (`Log`): the `LogFile` class. Its fields are an existence
  flag, the lines as `fgets` returns them and the modification time.
- `plugin.dfy` (`Plugin`).

Code that updates state in place is modelled with methods. That covers the
stores, the log file, the transformer, `get_entries`, `merge_settings`,
`clean_settings`, the update loop of `update_debug_status` and the dedup
loop of the download. Each method is proved against a specification
function, and the properties are proved about those functions as lemmas.

## Model

| member | source | states |
|---|---|---|
| Autoload.ClassFile | autoload.php:29-47 | No path exactly when the class lacks the `KolorWeb\KWLogManager\` prefix. Otherwise the path starts with `<plugin>/libs/`, ends in `.php` and has no backslash after the base directory. |
| Autoload.Autoloaded | autoload.php:47-51 | A file is loaded exactly when the class is in the namespace and its computed path exists, and that file is the computed path. |
| Autoload.SingletonPath | autoload.php:41-47 | `Characteristic\IsSingleton` is loaded from `libs/Characteristic/is-singleton.php`. |
| Autoload.ClassPath | autoload.php:43-47 | Every other class `R` is loaded from `libs/class-<R lower-cased, backslashes as slashes>.php`. |
| Autoload.SameFileIffSameLowerName | autoload.php:44-47 | For slash-free names, two classes share a file exactly when their relative names agree up to ASCII case. |
| Settings.FieldTables | libs/class-settings.php:40-66 | The key lists are the keys of their tables. The user table is the global table minus `custom_errors`, with the same defaults. |
| Settings.Merged | libs/class-settings.php:167-178 | A non-array or empty input leaves the base unchanged. Otherwise exactly the allowed incoming keys are overwritten with the incoming values, and every other key keeps its base value. |
| Settings.MergeSettings | libs/class-settings.php:167-178 | The loop computes `Merged`, and adds no key that is neither in the base nor allowed. |
| Settings.MergeIdempotent | libs/class-settings.php:167-178 | Merging the same input again changes nothing. |
| Settings.Overlay | libs/class-settings.php:86 | `array_merge($user, array_diff_key($global, $user))` keeps every user value and adds the global values only for keys the user lacks. |
| Settings.GlobalSettings | libs/class-settings.php:79-80 | The result has exactly the global fields. Each field is the stored value if the stored option supplies it, else the default. |
| Settings.UserSettings | libs/class-settings.php:83-84 | The same for the user fields and the user's stored meta. |
| Settings.EffectiveSettings | libs/class-settings.php:77-90 | The result always has exactly the global fields. For no user, these are the global settings. For a user, the user fields come from the user's settings and `custom_errors` from the global ones. |
| Settings.DefaultsWhenNothingStored | libs/class-settings.php:77-90 | With nothing stored, every user and the global scope see exactly the global defaults. |
| Settings.GlobalRoundTrip | libs/class-settings.php:113-120 | Reading back the stored global record gives exactly the merged record. |
| Settings.UserRoundTrip | libs/class-settings.php:148-154 | Reading back a user's stored record gives exactly the merged record. |
| Settings.UserMergeKeepsCustomErrors | libs/class-settings.php:151 | A user update never changes `custom_errors`. |
| Settings.Cleaned | libs/class-settings.php:189-202 | An array keeps its keys, and a scalar becomes the callback's result. |
| Settings.CleanSettings | libs/class-settings.php:189-202 | The loop with recursive calls computes `Cleaned`. |
| Settings.CleanedPaths | libs/class-settings.php:189-202 | Any key path that reaches a value in the input reaches that value's cleaned form in the output. |
| Settings.StoredUser | libs/class-settings.php:131-136 | A truthy stored user meta reads as exactly itself. An empty or missing one reads as false. |
| Settings.Store.GetGlobalSettings | libs/class-settings.php:100-102 | The stored option, or false when there is none. |
| Settings.Store.GetUserSettings | libs/class-settings.php:131-136 | Exactly the stored user meta when it is truthy, and false otherwise (empty or missing). |
| Settings.Store.GetSettings | libs/class-settings.php:77-90 | The effective settings always have exactly the global fields. |
| Settings.Store.UpdateOption | libs/class-settings.php:117 | An accepted write replaces the option's value. A refused write changes nothing. |
| Settings.Store.UpdateUserMeta | libs/class-settings.php:153 | An accepted write sets the one meta key of that user and leaves every other user and key alone. A refused write changes nothing. |
| Settings.Store.UpdateGlobalSettings | libs/class-settings.php:113-120 | The merged current settings are written when the store accepts. A later `get_settings(0)` then returns exactly them. |
| Settings.Store.UpdateUserSettings | libs/class-settings.php:148-154 | The user's merged settings are written to their meta when the store accepts. For a real user, a later `get_settings` returns exactly them. |
| Config.MaybeBoolToString | libs/class-config.php:86-95 | A string passes through unchanged. Anything else becomes `'true'` exactly when PHP validates it as boolean true, and `'false'` otherwise. |
| Config.DebugEnabled | libs/class-config.php:120-123 | Debugging is enabled only when `WP_DEBUG` is defined, that is, when the status is detected. |
| Config.StrictDebugReading | libs/class-config.php:120-148 | An undefined `WP_DEBUG` is neither detected nor enabled. Every value reported enabled is one PHP validates as true, but `1` and `'1'` are detected and still not enabled, because the comparison is strict. |
| Config.ToggleableIffAttempted | libs/class-config.php:133-136 | The status is toggleable exactly when wp-config.php exists and an update of it is attempted, and then the first call sets `WP_DEBUG`. |
| Config.Plan | libs/class-config.php:221-223 | One update call per constant, in order, with the value converted by `maybe_bool_to_string`. |
| Config.DebugPlanValues | libs/class-config.php:210-214 | The planned calls: `WP_DEBUG` and `WP_DEBUG_LOG` set to the status literal, which PHP reads back as the boolean status, and `WP_DEBUG_DISPLAY` set to `false`. |
| Config.ConfigTransformer.Update | libs/class-config.php:223 | Each call is recorded in order and answered by the transformer's oracle. |
| Config.UpdateConstants | libs/class-config.php:208-233 | The loop makes exactly the calls of the reference run and returns its result. |
| Config.UpdateDebugStatus | libs/class-config.php:198-235 | An unwritable wp-config.php gives false with no call. A transformer whose constructor threw lets the exception escape. Otherwise the calls and the returned result are those of the reference run. |
| Config.SetDebuggingStatus | libs/class-config.php:182-185 | The outcome and calls of the update with the given status, an escaping exception included. |
| Config.EnableDebugging | libs/class-config.php:158-160 | The outcome and calls of the update with status true. |
| Config.DisableDebugging | libs/class-config.php:170-172 | The outcome and calls of the update with status false. |
| Config.NotWritableNoUpdate | libs/class-config.php:200-202 | An unwritable config is never touched, and the result is false. |
| Config.DebugRunResult | libs/class-config.php:221-234 | Success exactly when the `WP_DEBUG` call returned true and none of the three calls threw. |
| Config.DebugRunIssued | libs/class-config.php:219-233 | The calls made are a non-empty prefix of the plan. The run stops short only right after a call that threw. |
| LogLine.Span | libs/class-log.php:203 | The longest prefix of one character class: the prefix lies in the class and the next character does not. |
| LogLine.MatchSound | libs/class-log.php:203 | Every match found is well formed (three field runs, a newline-free message, at most one final newline) and reassembles to the line. |
| LogLine.MatchComplete | libs/class-log.php:203 | Every well-formed line is matched, with exactly its captures, so captures are unique. |
| LogLine.RewriteFormatted | libs/class-log.php:203 | On a line in the log format, the rewrite gives the date, time and zone joined by `$!$`, followed by `$!$` and the message with its newline. |
| LogLine.CleanMessage | libs/class-log.php:214 | The message has its backslashes turned into slashes, and no backslash remains. |
| LogLine.ParseLine | libs/class-log.php:203-217 | No entry's message contains a backslash. |
| LogLine.MatchedLineEntry | libs/class-log.php:203-215 | A log-format line whose message has no `$!$` gives exactly one entry. The date is normalised, the time and zone are kept verbatim, and the message keeps the line's newline. |
| LogLine.MessageCutAtSep | libs/class-log.php:204-214 | A message containing `$!$` is cut exactly before its first occurrence, wherever that is. |
| LogLine.UnmatchedLineWithSeparators | libs/class-log.php:203-214 | Any line the pattern does not match, split at its first three `$!$` into `a`, `b`, `c` and a rest, yields the entry (date of `a`, `b`, `c`, cleaned first piece of the rest). |
| LogLine.UnmatchedLineSkipped | libs/class-log.php:203-206 | A line outside the format with no separator yields no entry, because it has fewer than 4 pieces. |
| LogLine.ParseAll | libs/class-log.php:201-218 | At most one entry per line, none with a backslash. |
| LogLine.ParseAllSnoc | libs/class-log.php:201-218 | Reading one more line appends that line's entry, if any. |
| LogLine.ParseAllAppend | libs/class-log.php:201-218 | Parsing distributes over concatenated line sequences. |
| Php.StrToInt | libs/class-log.php:180 | `intval` of a string always lies in the 64-bit range, and the empty string gives 0. |
| Php.DecimalString | libs/class-log.php:180 | A plain digit string that fits reads as its decimal value. |
| Php.FractionTruncated | libs/class-log.php:180 | A fractional part never changes the value: `intval('12.9')` is `intval('12')`. |
| Php.ExponentScales | libs/class-log.php:180 | An exponent scales the digits by that power of ten, saturated to 64 bits: `intval('1e3')` is 1000. |
| Php.ExplodeAtFirst | libs/class-log.php:204 | `explode` cuts at the first occurrence of the separator: when none starts inside `x`, the first piece is `x`. |
| Log.LogLimit | libs/class-log.php:180 | The limit is positive exactly when `intval(log_limit)` is positive, and then equals it. |
| Log.Retained | libs/class-log.php:187-194 | The retained lines are a suffix. With a positive limit and more lines than it, exactly the last `limit + 1` lines are kept. Otherwise all lines are kept. |
| Log.RetainedIsTail | libs/class-log.php:189-192 | Truncation leaves a valid line split whose bytes are a tail of the old file. |
| Log.Window | libs/class-log.php:229-234 | A suffix of `min(count, limit)` entries for a positive limit, and all entries otherwise. |
| Log.Reverse | libs/class-log.php:236 | Same length, with element `i` taken from position `n-1-i`. |
| Log.NewestFirst | libs/class-log.php:229-236 | The result has at most `limit` entries, exactly `min(count, limit)`. Entry `i` is the `i`-th newest parsed entry. |
| Log.LogFile.GetContents | libs/class-log.php:247-253 | `''` for a missing file, else the file's bytes. |
| Log.LogFile.FileSize | libs/class-log.php:159-165 | False exactly for a missing file, else the length of the contents. |
| Log.LogFile.IsSmaller | libs/class-log.php:143-149 | True exactly when the file exists and its size is below `intval(size)`. The default `''` gives false. |
| Log.LogFile.LastModified | libs/class-log.php:114-120 | False exactly for a missing file, else the formatted modification time. |
| Log.LogFile.IsModified | libs/class-log.php:93-104 | True only for an existing file and an integer or string timestamp. |
| Log.LogFile.ModifiedRoundTrip | libs/class-log.php:93-120 | What `last_modified` reports, and the raw time, are never "modified". Any other integer is. A string is modified exactly when it differs from `last_modified`. A missing file is never modified. |
| Log.LogFile.PutContents | libs/class-log.php:192 | The file exists, holds exactly the given lines and its time is now. |
| Log.LogFile.GetRecentEntries | libs/class-log.php:264-267 | Always empty. |
| Log.LogFile.Touch | libs/class-log.php:225 | The file exists, its lines are unchanged and its time is set. |
| Log.LogFile.TruncateToLimit | libs/class-log.php:187-194 | The lines become `Retained(old lines, limit)` and the modification time is restored. |
| Log.LogFile.ReadEntries | libs/class-log.php:197-222 | The read loop returns exactly `ParseAll` of the file's lines. |
| Log.LogFile.GetEntries | libs/class-log.php:175-237 | For an existing file: truncated per `Retained` with its time restored, and the entries are the windowed parse reversed. A missing file is created at `now` and gives no entries. |
| Log.LogFile.Clear | libs/class-log.php:276-280 | Succeeds exactly when the file exists and is writable. It then becomes empty, and its time changes only if its size did. Otherwise nothing changes. |
| Log.LogFile.Delete | libs/class-log.php:290-292 | Succeeds exactly when the file exists and can be removed, and the file is then gone. Otherwise nothing changes. |
| Plugin.UrlPath | libs/class-plugin.php:258 | The path has no `?`, ends with exactly one `/`, and has no other trailing slash or backslash. |
| Plugin.QueryIgnored | libs/class-plugin.php:258 | A query string does not change the matched path. |
| Plugin.DownloadPathForms | libs/class-plugin.php:258-263 | `/debugging/download/log` matches with or without its trailing slash. |
| Plugin.MissingUriNotServed | libs/class-plugin.php:257-263 | Without a request URI the path is `/`, and the download is never served. |
| Plugin.DownloadRequestServed | libs/class-plugin.php:257-267 | A request for the download path, with or without its trailing slash and with any query, is served exactly to a logged-in user the filter allows. |
| Plugin.SmartByDefault | libs/class-plugin.php:276 | With nothing stored, every user gets the smart download, because `truncate_download` defaults to 1. |
| Plugin.FormatEntryInLogFormat | libs/class-plugin.php:288 | The written line is the entry in the log's own `[date time zone] message` form followed by `<br/>`, with a final newline of the message as the line's tail. A well-formed one matches the log pattern again. |
| Plugin.FirstOccurrences | libs/class-plugin.php:281-291 | Never more entries than given. What they are is stated by the four lemmas that follow. |
| Plugin.Emitted | libs/class-plugin.php:288 | One filtered `[date time zone] message<br/>` line per entry, in order. |
| Plugin.SmartLog | libs/class-plugin.php:278-291 | The loop over `$found` writes exactly the lines of the first occurrences. |
| Plugin.KeptCoverAll | libs/class-plugin.php:281-291 | Every message of the entries is written. |
| Plugin.KeptDistinct | libs/class-plugin.php:281-291 | No message is written twice. |
| Plugin.KeptAreFirst | libs/class-plugin.php:281-291 | Each written entry is the first entry carrying its message, which is the most recent one because the entries come newest first. |
| Plugin.KeptInOrder | libs/class-plugin.php:281-291 | The written entries keep the order of their first occurrences, so the output is an order-preserving subsequence. |
| Plugin.AddDynamicRoutes | libs/class-plugin.php:253-298 | The request is served exactly when the user is logged in, the path is the download path and the filter allows it. An unserved request changes nothing. A served request writes what `Download` states. |
| Plugin.Download | libs/class-plugin.php:274-296 | With `truncate_download` set and truthy, the output is the first occurrences among the entries `get_entries` returns. An existing file is cut per `Retained` with its time restored, and a missing one is created empty at `now`. Otherwise the output is the filtered, trimmed raw contents and the file is unchanged. |

## Left out

- HTTP headers and `exit()` in `add_dynamic_routes` are left out. The response is modelled as the sequence of strings written.
- `md5($message)` as the dedup key is modelled as the message itself. Hash collisions, which could drop a distinct message, are not modelled.
- Host functions with no behaviour of their own here are parameters: `sanitize_text_field`/`wp_unslash`, `wp_kses_post`, `strtotime`+`gmdate('Y-m-d')`, `gmdate('c')` and the clock.
- The result of the `kwlm_can_download_log` filter, and whether the user is logged in, are parameters. So are file-system permissions, which decide whether wp-config.php is writable, `clear` can open the file and `delete` can unlink it.
- WPConfigTransformer is a foreign library. Its answers are an oracle, and its rewriting of wp-config.php is not modelled. Whether its constructor throws is given by the transformer passed in, which is null when it threw.
- Log.LogFile.GetEntries assumes that an existing file opens for reading and that `file_put_contents` succeeds. The failure paths (`@fopen` returning false, a failed write) and concurrent appends by other processes are not modelled.
- Log.LogFile.FileSize counts characters as bytes, because the model has no encoding.
- Log.LogFile.Clear: the modification time after a clear follows POSIX `ftruncate`, which changes it only when the size changes. Linux changes it on every successful call. The PHP code does not set the time itself, so this is the host's choice.
- Log.LogFile.Clear models PHP 7, where `ftruncate` on a failed `fopen` gives a falsy result. PHP 8 throws a TypeError instead.
- Log.LogFile.IsModified states only the one-directional fact in its own contract. The exact semantics are in `Log.LogFile.ModifiedRoundTrip`.
- Config.MaybeBoolToString: PHP floats are not modelled, because the value type has no float. The string case of `filter_var`, approximated with `trim` and ASCII lower-casing, is never reached from `maybe_bool_to_string`.
- Settings.CleanSettings takes an array, as its callers pass. A non-array argument, for which PHP warns in `foreach` and returns `array()`, is not modelled.
- Php.StrToInt uses exact decimal arithmetic. PHP reads a fraction or exponent prefix through a double, so rounding beyond about 15 significant digits and values beyond the double range are not modelled. PHP before 7.1 read only the leading digits.
- Settings.Merged: PHP arrays are modelled as maps from string keys. Key order, integer keys and `array_merge` renumbering of numeric keys are not modelled, and neither is `in_array` strict comparison against integer keys.
- `init`, `get_debug_file_path`, `get_timezone`, `file_exists` and `get_wp_config_file_path` only read host paths and configuration.
- The other routes and admin screens of `libs/class-plugin.php`, `libs/class-ajax.php`, `kw-log-manager.php` and `uninstall.php` are not part of this model.
