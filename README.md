# CameraObscura request handling, modelled in Dafny

CameraObscura is an IP-camera honeypot. It is a small web application that answers every request
from a table of routes (`routes.json`). A route is chosen by matching its key, read as a regular
expression, against the request path and query string. The chosen route lists named actions, which
run in turn until one of them answers:

- `authorize` checks credentials against a `;`-separated user database;
- `catchfile` stores uploads and writes a report beside them;
- `servefile` sends a file, optionally as a template, with placeholders filled in, or with a watermark;
- `sleep` delays the next action;
- `video` starts one ffmpeg HLS stream per video and serves its playlist.

Every request and login attempt, every upload and every ffmpeg start is handed to the logger,
which appends it as a JSON line to the log file when the `json` method is configured. The log file
rotates after a configured timespan. A cleanup pass kills stale ffmpeg processes and
deletes the scratch files of the `ul` directory.

The model is one Dafny module per source module:

- `Common`: Option, Result, a JSON-like `Value`, and string helpers with Python's `replace`,
  `in` and `int()`.
- `Paths`: POSIX `join`, `dirname` and `basename`, and `pathlib`'s suffix and stem.
- `Config`: the configuration lookup, and a `ConfigStore` class for the lazily loaded
  configuration.
- `Host`: a `Host` class that stands for the machine:
  - the files below the installation root, each with its content and modification time;
  - the directories;
  - the clock;
  - the running process ids;
  - the journal of log calls made, in order.
- `Web`: the request, the route, responses, and the four outcomes of an action:
  - continue (Python's `None`);
  - a bare boolean;
  - a response;
  - an exception, by its class or message.
- `Logging`, `Util`, `ServeFile`, `Authorize`, `CatchFile`, `Video` and `Sleep`: the modules of the
  same names.
- `Actions`: the action registry and its dispatch.
- `Http`: route selection, the request pipeline and the header hook. The `App` class holds the
  route table and the last route chosen.

Python's regular-expression search and match, `strftime`, `parse_qs(unquote(...))` and the JSON
encoder are given to the model as functions it does not look into (`Runtime.Site`). The random
index servefile draws and the process id ffmpeg gets are parameters.

The actions and the request handler record each log call they make in the host's journal. What a
single log call does to the files is modelled on its own, by `Logging.Log`; it is not applied to
the files inside the actions (see "Left out").

Each operation that changes files, processes or the journal is a method on the `Host`. Its
contract relates the old state to the new one through a specification function or predicate, and
lemmas state what those promise.

## Model

| member | source | states |
|---|---|---|
| Common.ContainsTail | core/actions/authorize.py:74 | a substring of the tail is a substring of the whole string (Python's `in` on strings) |
| Common.ReplaceAbsent | core/util.py:39 | `replace` leaves a string without the searched text unchanged |
| Common.ReplaceSelf | core/util.py:39 | replacing a text by itself changes nothing |
| Common.ReplaceAtEnd | core/actions/video.py:53 | replacing a text that occurs only at the end swaps that ending for the replacement |
| Common.MissingHeadNotContained | core/util.py:39 | a text whose first character is absent from a string does not occur in it |
| Common.ReplaceOnce | core/util.py:39 | a text that occurs exactly once is replaced in place, and the rest is kept |
| Common.ReplaceKeepsAbsent | core/util.py:39 | `replace` brings in no character that was in neither the string nor the replacement |
| Common.DigitChar | core/actions/video.py:64 | the digit written for a value below ten is a decimal digit of that value |
| Common.DigitValue | core/util.py:56 | reading a digit character gives the value whose digit it is |
| Common.NatToString | core/actions/video.py:64 | `str(pid)` is a non-empty run of decimal digits |
| Common.ParseNat | core/util.py:56 | `int()` on a lock file's content succeeds exactly on a non-empty run of digits |
| Common.ParseNatRoundTrip | core/util.py:56 | reading back a process id written by video gives the same id |
| Paths.Join | core/logging.py:133-135 | `os.path.join` keeps an absolute second part as it is, and joining onto an absolute path stays absolute |
| Paths.LastIndexOf | core/actions/servefile.py:81 | finds the last `/` of a path, or says there is none |
| Paths.JoinSplits | core/actions/servefile.py:89 | `dirname` and `basename` of `join(d, n)` give back `d` and `n` |
| Paths.Suffix | core/actions/servefile.py:85 | `pathlib`'s suffix is empty, or a dot-started ending of the name that is shorter than the name |
| Paths.StemSplit | core/actions/servefile.py:85-86 | when the suffix occurs only at the end of the name, `name.replace(suffix, "")` plus the suffix gives back the name |
| Config.GetValue | core/config.py:62-68 | a value is found exactly when the section and key exist; `"true"`/`"false"` become booleans and other text stays text |
| Config.AreRouteConfigValuesExisting | core/config.py:14-33 | true exactly when the haystack exists and holds every needle |
| Config.ConfigStore.constructor | core/config.py:11 | no configuration is loaded yet |
| Config.ConfigStore.GetConfigurationValue | core/config.py:48-68 | the configuration is loaded on the first call and kept afterwards; the answer is the lookup in it |
| Host.Host.Write | core/actions/catchfile.py:52 | a write succeeds exactly when the parent directory exists, and then replaces that one file only |
| Logging.WrapperCall | core/logging.py:159-196 | a log call with a request carries its address, GET and POST fields; without one they are empty |
| Logging.Flatten | core/logging.py:114-119 | `kwargs` is merged into the entry's fields, the keyword values win, and `kwargs` itself is gone |
| Logging.WrapperEntryFields | core/logging.py:104-121 | a logged request line holds exactly the nine fields eventId, timestamp, message, isError, src_ip, sensor, useragent, get, post |
| Logging.LogEntry.constructor | core/logging.py:24-41 | the entry holds the six attributes and the keyword arguments |
| Logging.LogEntry.ToJsonFields | core/logging.py:104-121 | encoding flattens the entry's attributes in place and encodes the result |
| Logging.GetAbsolutePath | core/logging.py:123-135 | absolute names are kept; relative ones are joined onto the root |
| Logging.Rotate | core/logging.py:145-156 | a missing timespan is an error; a fresh log is left alone; a missing log fails only for a timespan below 1; an existing log older than the timespan is always rotated away; a rotation moves the log to `path.N` and keeps every other file |
| Logging.GetLogFilename | core/logging.py:137-157 | the log's absolute path is returned exactly when the rotation succeeds, and the files are rotated as `Rotate` says |
| Logging.Appended | core/logging.py:97-98 | appending adds the line to the end of that one file, or creates it, and keeps every other file |
| Logging.Json | core/logging.py:85-102 | the result and the new files are those `JsonWritten` gives for the entry's flattened JSON line |
| Logging.JsonOutcome | core/logging.py:85-102 | true exactly when the rotation succeeds and the log's directory exists and the log is not a directory, and then the line ends the log and every other file is kept; false exactly when the rotation succeeds and the directory is missing, with only the rotation done; an error leaves the files rotated at most |
| Logging.Log | core/logging.py:53-71 | the `json` method writes as `JsonWritten` says; `stdout` answers true and changes no file; any other setting logs nothing and answers false |
| Web.GetString | core/http.py:166-174 | empty exactly for an empty query; otherwise `?` followed by the query |
| Web.ItemsCover | core/actions/catchfile.py:32 | every field the request sends a file under is visited |
| Web.ItemsDistinct | core/actions/catchfile.py:32 | no field is visited twice |
| Web.ItemsFirst | core/actions/catchfile.py:32 | each visited file is the first one sent under its field |
| Util.RunLength | core/util.py:29 | the longest prefix of `[a-z.]` characters |
| Util.Tokens | core/util.py:29 | every match found by `\$[a-z.]+` is a `$` followed by one or more placeholder characters |
| Util.Before | core/util.py:36 | the part before the first separator, which holds no separator |
| Util.ReplacePlaceholders | core/util.py:9-40 | no text gives `""`; otherwise each placeholder is replaced in turn after `strftime` |
| Util.UnresolvedTokensKeepText | core/util.py:35-39 | placeholders that name no text setting leave the text unchanged |
| Util.TokensAfterPlain | core/util.py:29 | text before the first `$` contributes no placeholder |
| Util.TokenAlone | core/util.py:29 | `$name` on its own is one placeholder |
| Util.BeforeJoined | core/util.py:36 | `split` at the first separator gives back both sides |
| Util.SingleTokenReplaced | core/util.py:9-40 | `$section.key` naming a text setting is replaced by that setting's value |
| Util.DotlessTokenKept | core/util.py:35 | a placeholder without a dot is left as it is |
| Util.Cleanup | core/util.py:43-67 | a missing `ul` directory fails and changes nothing; otherwise no file is added, only `ul` files are removed, only processes named by `ul` lock files are killed; a completed pass kills exactly those processes, and leaves no `.ts`/`.tmp` file; the log only grows |
| Util.Sweep | core/util.py:52-67 | one file of `ul`: a lock with a non-numeric pid stops the pass and changes nothing; otherwise the killed processes grow by that lock's pid and scratch files are deleted |
| Util.Reap | core/util.py:54-63 | a lock file's process is killed when it runs; a lock without a number fails; no other process is touched |
| Util.LockPidsStep | core/util.py:52-60 | handling one more file of `ul` adds the pid its lock names, if any, to the pids to kill |
| ServeFile.GroupRef | core/actions/servefile.py:125 | `$N` starts with `$` and has at least one digit |
| ServeFile.SubstituteGroupsFails | core/actions/servefile.py:121-126 | replacing fails, with a TypeError, exactly when a group did not take part in the match |
| ServeFile.NoReferencesKeepFile | core/actions/servefile.py:124-126 | a file name without `$` is kept when every group matched |
| ServeFile.OneGroupForwarded | core/actions/servefile.py:110-114 | `pre$1post` with one matched group becomes `pre` + group + `post` |
| ServeFile.RenamedFails | core/actions/servefile.py:120-126 | renaming fails exactly when the key matched and one of its groups is unmatched |
| ServeFile.Forwarded | core/actions/servefile.py:101-132 | the unmatched-group failure as above; with no match, the name is kept exactly when the file exists; with a match, the renamed file is forwarded exactly when it exists under the root |
| ServeFile.KeyPatternForward | core/actions/servefile.py:101-132 | computes `Forwarded` |
| ServeFile.WatermarkBesideOriginal | core/actions/servefile.py:85-89 | the watermarked copy lies in the original's directory, is named `stem_tmp.suffix`, and is a different file |
| ServeFile.WatermarkText | core/actions/servefile.py:92 | placeholders are filled into text; no text gives `""`; anything else is a TypeError |
| ServeFile.Watermarked | core/actions/servefile.py:53-99 | fails when x, y, color or text is missing or the image does not exist; a success names the `_tmp` copy in an existing directory |
| ServeFile.ApplyWatermark | core/actions/servefile.py:53-99 | writes exactly the watermarked copy, or nothing when it fails |
| ServeFile.SelectMode | core/actions/servefile.py:170-199 | the template flag wins, then placeholders, then a watermark; otherwise the file is sent as it is |
| ServeFile.ChooseFile | core/actions/servefile.py:153-160 | a string is the file; a non-empty list of strings gives one of its entries; an empty list or anything else fails |
| ServeFile.Decide | core/actions/servefile.py:134-199 | no `file` entry fails; it fails exactly when choosing or forwarding the file fails; a 404 happens exactly for a key with `(` whose forwarding finds no file; otherwise the action follows `SelectMode` |
| ServeFile.PlainKeyServesNamedFile | core/actions/servefile.py:162-169 | a key without `(` serves the named file under the root and never answers 404 |
| ServeFile.Run | core/actions/servefile.py:134-199 | answers and changes files as `Served` says |
| Authorize.LineLength | core/actions/authorize.py:30 | the first line of a text runs up to and including its first newline, or to the end |
| Authorize.LinesShape | core/actions/authorize.py:30 | `readlines` gives non-empty lines; each but the last ends in a newline, and no line has one elsewhere |
| Authorize.LinesConcat | core/actions/authorize.py:30 | the lines joined give back the file |
| Authorize.Chomp | core/actions/authorize.py:32-35 | at most one trailing newline is removed |
| Authorize.StoredLineSplits | core/actions/authorize.py:32-34 | `user;password` splits into user and password, the line ending included |
| Authorize.AsWrittenRejectsStoredLine | core/actions/authorize.py:35 | comparing the raw line never accepts a correct password stored on a newline-terminated line |
| Authorize.StoredLoginRefused | core/actions/authorize.py:28-38 | as written, a database holding just the line stored for a user refuses that user's own login |
| Authorize.StoredLineAccepted | core/actions/authorize.py:32-35 | with the line ending removed, a stored line accepts its own password and no other |
| Authorize.AuthorizedGrants | core/actions/authorize.py:28-38 | success exactly when some line grants the login and every earlier line holds a `;` |
| Authorize.GrantingLine | core/actions/authorize.py:31-37 | a success names the granting line |
| Authorize.GrantingLineGrants | core/actions/authorize.py:35-37 | a granting line reached without a split error gives success |
| Authorize.AuthorizedRefuses | core/actions/authorize.py:28-38 | refusal exactly when every line holds a `;` and none matches |
| Authorize.IsAuthorized | core/actions/authorize.py:16-38 | the line loop, comparing each raw line as written, computes `Authorized` on the database's lines |
| Authorize.Credentials | core/actions/authorize.py:82-90 | no haystack gives nothing; otherwise the pair is read from one of the haystacks |
| Authorize.GetThenPost | core/actions/authorize.py:84-90 | GET is used when it holds both keys; otherwise POST |
| Authorize.SelectCredentials | core/actions/authorize.py:82-90 | the loop computes `Credentials` |
| Authorize.Collapse | core/actions/authorize.py:92-95 | a list is replaced by its first entry |
| Authorize.GetSource | core/actions/authorize.py:70-77 | the GET fields are the request's arguments, unless the query holds `%3`; then they are the query re-parsed |
| Authorize.Assess | core/actions/authorize.py:59-103 | a missing block raises; 403 exactly when a key setting is missing; a login attempt exactly when the credentials are read and both are non-empty and `user_db` is set; an anonymous pass exactly when they are read and one is absent or empty |
| Authorize.OnErrorAction | core/actions/authorize.py:111-137 | no `on_error` gives 403; an integer `abort` knows is the status; a boolean or an unknown code raises `LookupError`; an existing path is served; any other text is a redirect target; any other value raises `TypeError` |
| Authorize.OptionValue | core/actions/authorize.py:128-129 | the option is truthy exactly when it is present and truthy |
| Authorize.AsWrittenIgnoresPlaceholderOption | core/actions/authorize.py:128 | the error page as built is never served with placeholders, whatever the route says |
| Authorize.ErrorPageNeverFilled | core/actions/authorize.py:123-134 | as written, servefile never fills the placeholders of the error page |
| Authorize.ErrorPageModes | core/actions/authorize.py:123-134 | with the key servefile reads, the error page is a template when asked, otherwise filled with placeholders when asked, and never watermarked |
| Authorize.LoginCall | core/actions/authorize.py:105-110 | the login is logged as a success or a failure, and as an error exactly when it failed |
| Authorize.ReadLogin | core/actions/authorize.py:59-99 | computes `Assess` |
| Authorize.Refuse | core/actions/authorize.py:111-137 | answers as `OnErrorAction` says: 403, the status, a redirect, the raised error, or the error page served from the block as written |
| Authorize.Run | core/actions/authorize.py:41-137 | behaves as `Handled` says for every assessment, database and as-written verdict |
| Authorize.CheckLogin | core/actions/authorize.py:101-137 | a login attempt: reads the database, compares its raw lines, logs the verdict, then continues or refuses |
| CatchFile.SavedAll | core/actions/catchfile.py:51-52 | every upload is stored under `{hash}_{field}` |
| CatchFile.SavedOnly | core/actions/catchfile.py:51-52 | no other file is created or changed |
| CatchFile.Stop | core/actions/catchfile.py:32-52 | the index of the first upload that cannot be stored, or all of them |
| CatchFile.StopMeans | core/actions/catchfile.py:33-52 | every upload before the stop is non-empty and writable, and the one at the stop is not |
| CatchFile.UploadCalls | core/actions/catchfile.py:56-62 | one log call per stored upload |
| CatchFile.UploadCallsAll | core/actions/catchfile.py:56-62 | every one of them is the upload log call |
| CatchFile.CatchShape | core/actions/catchfile.py:11-66 | no uploads: nothing happens; no download directory: 404 and nothing stored; continuing means every upload was non-empty |
| CatchFile.CatchStoresAll | core/actions/catchfile.py:32-66 | when it continues, every upload and the report are stored, and one non-error upload call is logged per file |
| CatchFile.CatchStoresEveryField | core/actions/catchfile.py:32-66 | when it continues, a file is stored for every field of the request |
| CatchFile.AbortKeepsEarlierUploads | core/actions/catchfile.py:33-34 | a 404 for an empty upload keeps the uploads stored before it, and no report is written |
| CatchFile.StopAt | core/actions/catchfile.py:32-52 | the first blocked upload is the stop |
| CatchFile.CatchStopsAt | core/actions/catchfile.py:33-52 | at the stop an empty upload gives 404 and an unwritable one raises, with the earlier uploads stored and logged |
| CatchFile.CatchCompletes | core/actions/catchfile.py:64-66 | after all uploads, the report is written, or the write raises |
| CatchFile.CatchHalted | core/actions/catchfile.py:32-52 | a halt at an upload gives the whole result of `Catch` |
| CatchFile.SaveUpload | core/actions/catchfile.py:33-62 | one upload: halts with nothing changed, or stores it, extends the report and logs it |
| CatchFile.SaveUploads | core/actions/catchfile.py:32-62 | the loop stores and logs uploads up to the halt, or all of them |
| CatchFile.ProgressStart | core/actions/catchfile.py:30-31 | before the loop nothing is stored, logged or reported |
| CatchFile.Run | core/actions/catchfile.py:11-66 | the outcome, files and journal are those of `Catch` |
| CatchFile.NextStop | core/actions/catchfile.py:33-52 | a storable upload before the stop moves the stop past it |
| Video.Validate | core/actions/video.py:38-48 | succeeds exactly for an object block whose mode is `m3u8` and whose video is a path; each check has its own message |
| Video.PlaylistBesideLock | core/actions/video.py:55-56 | the playlist and the lock are two different `ul/` files with their own suffixes |
| Video.StreamSendsPlaylist | core/actions/video.py:69-79 | the hand-off sends the playlist as it is: no template, placeholders or watermark |
| Video.Streamed | core/actions/video.py:69-79 | the answer is the playlist, or the failure to open it |
| Video.StreamServed | core/actions/video.py:69-79 | servefile changes no file when handed the stream route |
| Video.Run | core/actions/video.py:20-79 | an invalid block raises and changes nothing; an existing lock only hands off; otherwise ffmpeg starts, its pid is written to the lock and logged, then the hand-off |
| Video.HandOff | core/actions/video.py:69-79 | the hand-off answers `Streamed` and changes nothing |
| Sleep.Run | core/actions/sleep.py:19-22 | continues exactly when the block is an object with a duration; otherwise it raises |
| Actions.IsActionPresent | core/actions/__init__.py:11-21 | true exactly for the five action names |
| Actions.Run | core/actions/__init__.py:24-29 | a registered, loaded action runs as its module says; any other name continues and changes nothing |
| Actions.UnknownActionContinues | core/actions/__init__.py:24-29 | an unknown name continues and changes nothing |
| Actions.NoBooleanResults | core/actions/__init__.py:24-29 | no action answers with a bare boolean |
| Actions.ServeFileNeverBoolean | core/actions/servefile.py:134-199 | servefile never answers with a boolean |
| Actions.AuthorizeNeverBoolean | core/actions/authorize.py:41-137 | authorize never answers with a boolean |
| Actions.LoginNeverBoolean | core/actions/authorize.py:101-137 | a login attempt never answers with a boolean |
| Http.FirstPick | core/http.py:100-105 | the first route key that matches a path not starting with `.`, or none when no key does |
| Http.Lookup | core/http.py:108 | `routes[key]` is found exactly when the key is in the table |
| Http.EmptyPathGetsRootRoute | core/http.py:107-109 | an empty path gets the `""` route, or a KeyError when there is none |
| Http.DotPathSelectsNothing | core/http.py:102 | a path starting with `.` selects no route |
| Http.ScanPicksFirstMatch | core/http.py:100-105 | a selected key is non-empty, matches path plus query, and comes after no other matching key |
| Http.FirstAnswer | core/http.py:161-164 | the pipeline's answer is the first terminal result, or continue when there is none |
| Http.LaterResultsIgnored | core/http.py:163-164 | results after the first answer are ignored |
| Http.NoAnswerContinues | core/http.py:161-164 | with no terminal result the handler answers nothing |
| Http.AnswerAppended | core/http.py:161-164 | one more result decides the answer only while none was given |
| Http.RanInTurnMeans | core/http.py:161-162 | every result came from running its action on the state the previous one left |
| Http.RanInTurnStep | core/http.py:161-162 | running the next action extends the run |
| Http.App.constructor | core/http.py:28-47 | the route table as loaded, with no last route |
| Http.App.GetRoute | core/http.py:84-111 | the scan computes `SelectRoute` |
| Http.App.HandleRoute | core/http.py:141-164 | a lookup error raises and changes nothing; no route logs the request as an error and answers 404; otherwise the request is logged, the route becomes the last route, and the actions run in turn until the first answer |
| Http.App.AddHeader | core/http.py:50-59 | the last route's headers are added to the response, overriding those of the same name; every other header is kept |
| Http.RunActions | core/http.py:161-164 | runs the actions in order and stops after the first answer |
| Http.Step | core/http.py:162 | runs one action and records its state |

## Left out

- Sleep.Run: the delay itself is not modelled. That covers the float conversion of `duration`,
  the `randomize` offset (which the source computes and then does not use) and the blocking wait.
  Only the configuration check is.
- Regular expressions, `strftime`, `parse_qs(unquote(...))`, jsonpickle and PIL are not
  interpreted. They are uninterpreted functions of `Runtime.Site`, and the watermark drawing is
  reduced to the text it draws.
- ffmpeg is reduced to the process id it gets, and `psutil`'s kill to removing that id from the
  running set.
- `parse_routes`, `serve`, `error_handler`, the Flask application set-up and the Discord webhook
  are not part of this model.
- `parse_routes` reads a JSON object, so duplicate route keys cannot occur. The table is a
  sequence of pairs, where the first entry of a key is the one used.
- Concurrency between requests is not modelled: each request runs alone on the host state.
- Header names are compared as given, not case-insensitively.
- Common.ParseNat: `int()` on a lock file accepts only digits here. Python also accepts
  surrounding whitespace and a sign.
- Authorize.Lines: lines are split at `\n` only. Python's universal newlines also split at `\r`.
- Exception messages are reduced to the exception class for errors that Python raises on a
  malformed block (`KeyError`, `TypeError`).
- Video.Validate: the value of the mode that `Invalid mode supplied: {mode}` prints is not
  carried in the message.
- A route whose actions entry is missing is not modelled: a `Route` always has its list of
  actions.
- Http.App.HandleRoute: when no action answers, Python returns `None` and Flask then fails. The
  model answers `Continue`, and the behaviour after that is not modelled.
- ServeFile.Forwarded: the docstring example of `_key_pattern_forward` (servefile.py:110-114)
  reads `request_path`, but the code searches the global `request.path`. The model follows the
  code: the text searched is the request's path.
- ServeFile.Watermarked: `path.exists` at servefile.py:82 is a method that is never called, so
  that test never fails. The model fails when the image cannot be opened, which is where Python
  fails.
- Util.Cleanup: the journal is stated only to grow. Which lock-removal calls it gains is not
  stated in the contract.
- Util.Cleanup: a log call is recorded in the journal, but its write to the log file, its
  rotation of the log and an exception it raises are not applied. The claims that only `ul` files
  are removed and no file is added therefore leave the log file and its rotated copies aside.
- Http.App.HandleRoute: the request's log call is recorded in the journal only. Its write to the
  log file and an exception it raises are not applied, so "no route leaves the files unchanged"
  leaves the log file and its rotated copies aside.
- Video.Run: the log call for the ffmpeg start is recorded in the journal only. Its write to the
  log file and an exception it raises are not applied; the files it states leave the log file
  aside.
- CatchFile.Run: the upload log calls are recorded in the journal only. Their writes to the log
  file and exceptions they raise are not applied; the files `Catch` states leave the log file
  aside. The same holds for `Authorize.Run`'s login log call.
- Authorize.OnErrorAction: the codes `abort` has an exception for are those of werkzeug 2's
  `default_exceptions`; another werkzeug version may know a slightly different set.
- Authorize.Assess: a block that is present but not an object (text, a list, a number) is
  refused with 403, like a missing one. Python applies `in` to it instead: a substring test on
  text, membership on a list, and a `TypeError` on a number.
- The working directory is taken to be the installation root. Video's `ul/...` names and the log
  rotation's `listdir(".")` are resolved against it.
- `EVENT_ID_FFMPEG_STARTED` and `EVENT_ID_REMOVED_LOCK` are used by video.py and util.py but are
  not defined in logging.py. The model gives them names of its own.
- servefile.py calls `config.get_configuration_value` and `http.getString`, which the modules do
  not define. The model uses `getConfigurationValue` and `get_string`.
- `getConfiguration` never returns `None` (the `is False` test cannot hold), so the "still empty"
  branch of `getConfigurationValue` is not modelled.
- A route's actions are names, matching `action in __all__` and `modules[action].run`.
- A log call with the `stdout` method prints. The model answers true and leaves the files as they
  are.

## Findings

| source | as written | input that shows it | evidently intended | confidence | as-written member | corrected member |
|---|---|---|---|---|---|---|
| core/actions/authorize.py:30-35 | `readlines` keeps each line's `\n`, and the password part is compared with it | a database line `admin;secret\n` with user `admin` and password `secret` | the stored password matches without its line ending | not executed | Authorize.StoredLoginRefused | Authorize.StoredLineAccepted |
| core/actions/authorize.py:128 | the error page's block sets `process_placeholder`, but servefile reads `process_placeholders` | `on_error_placeholder: true` with an existing `on_error` page | the error page is served with its placeholders filled in | not executed | Authorize.ErrorPageNeverFilled | Authorize.ErrorPageModes |

The `authorize` action is modelled as written: `Authorize.Authorized` compares the raw lines
(`Authorize.LineMatches`), and the error page is served from the block with the
`process_placeholder` key (`Authorize.OnErrorBlock`). The corrected definitions,
`Authorize.LineMatchesIntended` and `Authorize.OnErrorBlockIntended`, stand beside them with their
properties proved.
