/** The logging sink: the event vocabulary, the entry record, its flattening into JSON fields,
    the method whitelist, the JSON-lines file and its rotation. */
module Logging {
  import opened Common
  import opened Paths
  import opened Config
  import opened Web
  import opened Host

  const EventStarted := "obscura.sensor.started"
  const EventHttpRequest := "obscura.http.request"
  const EventLoginSuccess := "obscura.http.login_success"
  const EventLoginFailed := "obscura.http.login_failed"
  const EventUpload := "obscura.http.upload"
  /** Used by the video action and the cleanup routine, but never defined by the logging
      module; the text given here is a stand-in. */
  const EventFfmpegStarted := "obscura.ffmpeg.started"
  const EventRemovedLock := "obscura.lock.removed"

  /** Python's `str()` of an optional string. */
  function PyStr(o: Option<string>): string
  {
    if o.None? then "None" else o.value
  }

  /** A request's GET or POST fields as a JSON object. */
  function FieldsValue(m: map<string, string>): Value
  {
    VMap(map k | k in m :: VStr(m[k]))
  }

  /** `log_wrapper`: the call it makes to `log`. Without a request the source address is empty,
      the user agent empty, and the GET and POST snapshots are empty objects. */
  function WrapperCall(id: string, message: string, request: Option<Request>, isError: bool): (c: LogCall)
    ensures c.eventId == id && c.message == message && c.isError == isError
    ensures c.kwargs.Keys == {"useragent", "get", "post"}
    ensures request.None? ==> c.srcIp == "" && c.kwargs["useragent"] == VStr("")
                              && c.kwargs["get"] == VMap(map[]) && c.kwargs["post"] == VMap(map[])
    ensures request.Some? ==> c.srcIp == PyStr(request.value.remoteAddr)
                              && c.kwargs["get"] == FieldsValue(request.value.args)
                              && c.kwargs["post"] == FieldsValue(request.value.form)
  {
    match request
    case None =>
      LogCall(id, message, isError, "", map["useragent" := VStr(""), "get" := VMap(map[]), "post" := VMap(map[])])
    case Some(req) =>
      var agent := if req.userAgent.Some? then VStr(req.userAgent.value) else VNull;
      LogCall(id, message, isError, PyStr(req.remoteAddr),
              map["useragent" := agent, "get" := FieldsValue(req.args), "post" := FieldsValue(req.form)])
  }

  /** The attributes a fresh `LogEntry` holds. */
  function EntryAttributes(call: LogCall, timestamp: int, sensor: string): map<string, Value>
  {
    map["eventId" := VStr(call.eventId), "timestamp" := VInt(timestamp), "message" := VStr(call.message),
        "isError" := VBool(call.isError), "src_ip" := VStr(call.srcIp), "sensor" := VStr(sensor),
        "kwargs" := VMap(call.kwargs)]
  }

  /** The attributes of an entry after `log_entry_to_json`: every keyword argument becomes a
      top-level field (overriding an attribute of the same name) and `kwargs` itself is gone. */
  function Flatten(attrs: map<string, Value>): (r: map<string, Value>)
    requires "kwargs" in attrs && attrs["kwargs"].VMap?
    ensures "kwargs" !in r
    ensures r.Keys == (attrs.Keys + attrs["kwargs"].fields.Keys) - {"kwargs"}
    ensures forall k :: k in attrs["kwargs"].fields && k != "kwargs" ==> r[k] == attrs["kwargs"].fields[k]
    ensures forall k :: k in attrs && k !in attrs["kwargs"].fields && k != "kwargs" ==> r[k] == attrs[k]
  {
    (attrs + attrs["kwargs"].fields) - {"kwargs"}
  }

  /** A wrapper entry always serialises to the same nine top-level fields. */
  lemma WrapperEntryFields(id: string, message: string, request: Option<Request>, isError: bool, timestamp: int, sensor: string)
    ensures Flatten(EntryAttributes(WrapperCall(id, message, request, isError), timestamp, sensor)).Keys
            == {"eventId", "timestamp", "message", "isError", "src_ip", "sensor", "useragent", "get", "post"}
  {
  }

  /** A log entry object; `attrs` is its attribute dictionary. */
  class LogEntry {
    var attrs: map<string, Value>

    constructor (call: LogCall, timestamp: int, sensor: string)
      ensures attrs == EntryAttributes(call, timestamp, sensor)
    {
      attrs := EntryAttributes(call, timestamp, sensor);
    }

    /** `log_entry_to_json` up to the JSON encoding: lifts the keyword arguments into the
        attribute dictionary one by one, deletes `kwargs`, and gives the fields to encode. */
    method ToJsonFields() returns (fields: map<string, Value>)
      requires "kwargs" in attrs && attrs["kwargs"].VMap?
      modifies this
      ensures attrs == Flatten(old(attrs))
      ensures fields == attrs
    {
      var kwargs := attrs["kwargs"].fields;
      var todo := kwargs.Keys;
      while todo != {}
        invariant todo <= kwargs.Keys
        invariant attrs == old(attrs) + map k | k in kwargs.Keys - todo :: kwargs[k]
        decreases todo
      {
        var k :| k in todo;
        attrs := attrs[k := kwargs[k]];
        todo := todo - {k};
      }
      attrs := attrs - {"kwargs"};
      fields := attrs;
    }
  }

  /** `get_absolute_path`: absolute paths unchanged, relative ones joined onto the root. */
  function GetAbsolutePath(filename: string, root: string): (r: string)
    ensures IsAbs(filename) ==> r == filename
    ensures !IsAbs(filename) ==> r == Join(root, filename)
  {
    if IsAbs(filename) then filename else Join(root, filename)
  }

  /** The configured log file, resolved against the root. */
  function LogPath(cfg: Sections, root: string): string
  {
    GetAbsolutePath(StrOf(GetValue(cfg, "log", "path")), root)
  }

  /** The configured rotation timespan, `None` when `int()` would raise. */
  function Timespan(cfg: Sections): Option<int>
  {
    ParseInt(StrOf(GetValue(cfg, "log", "timespan")))
  }

  /** The modification time rotation compares against: the file's own, or one second ago
      when the file does not exist. */
  function Modification(files: map<string, FileEntry>, abs: string, now: int): int
  {
    if abs in files then files[abs].mtime else now - 1
  }

  /** The files of the working directory (the root) whose names contain the configured path. */
  function RotationIndex(files: map<string, FileEntry>, root: string, path: string): nat
  {
    |set p | p in files && DirName(p) == root && Contains(BaseName(p), path)|
  }

  /** `get_log_filename`'s effect on the files: when `mtime + timespan < now` the log file moves
      to `path.N`, N counting the working directory's files whose names contain the path; moving
      a missing file raises. A timespan that is not an integer raises. */
  function Rotate(files: map<string, FileEntry>, cfg: Sections, root: string, now: int): (r: Result<map<string, FileEntry>>)
    ensures Timespan(cfg).None? ==> r.Err?
    ensures Timespan(cfg).Some? && Modification(files, LogPath(cfg, root), now) + Timespan(cfg).value >= now
            ==> r == Ok(files)
    ensures Timespan(cfg).Some? && LogPath(cfg, root) !in files
            ==> (r.Err? <==> Timespan(cfg).value < 1)
    ensures Timespan(cfg).Some? && LogPath(cfg, root) in files
            && files[LogPath(cfg, root)].mtime + Timespan(cfg).value < now
            ==> r.Ok? && LogPath(cfg, root) !in r.value
    ensures r.Ok? && r.value != files ==>
              var abs := LogPath(cfg, root);
              var dest := abs + "." + NatToString(RotationIndex(files, root, StrOf(GetValue(cfg, "log", "path"))));
              abs in files && abs !in r.value && dest in r.value && r.value[dest] == files[abs]
              && forall p :: p in files && p != abs && p != dest ==> p in r.value && r.value[p] == files[p]
  {
    var path := StrOf(GetValue(cfg, "log", "path"));
    var abs := GetAbsolutePath(path, root);
    match Timespan(cfg)
    case None => Err("ValueError")
    case Some(timespan) =>
      if Modification(files, abs, now) + timespan < now then
        if abs in files then
          var dest := abs + "." + NatToString(RotationIndex(files, root, path));
          assert dest != abs by { assert |dest| > |abs|; }
          Ok((files - {abs})[dest := files[abs]])
        else Err("FileNotFoundError")
      else Ok(files)
  }

  /** `get_log_filename`: rotates the log file when it is due and gives its absolute path. */
  method GetLogFilename(host: Host, cfg: Sections) returns (r: Result<string>)
    modifies host`files
    ensures var rotated := Rotate(old(host.files), cfg, host.root, host.now);
            (r.Ok? <==> rotated.Ok?)
            && (r.Ok? ==> r.value == LogPath(cfg, host.root) && host.files == rotated.value)
            && (r.Err? ==> r == Err(rotated.error) && host.files == old(host.files))
  {
    var path := StrOf(GetValue(cfg, "log", "path"));
    var absolutePath := GetAbsolutePath(path, host.root);
    var now := host.now;
    var modification := if absolutePath in host.files then host.files[absolutePath].mtime else now - 1;
    var timespan := ParseInt(StrOf(GetValue(cfg, "log", "timespan")));
    if timespan.None? {
      return Err("ValueError");
    }
    if modification + timespan.value < now {
      var suffix := RotationIndex(host.files, host.root, path);
      if absolutePath !in host.files {
        return Err("FileNotFoundError");
      }
      var moved := host.files[absolutePath];
      host.files := (host.files - {absolutePath})[absolutePath + "." + NatToString(suffix) := moved];
    }
    r := Ok(absolutePath);
  }

  /** The file after appending one line to it (creating it when absent). */
  function Appended(files: map<string, FileEntry>, p: string, line: string, now: int): (r: map<string, FileEntry>)
    ensures r.Keys == files.Keys + {p}
    ensures p in files ==> r[p].content == files[p].content + line
    ensures p !in files ==> r[p].content == line
    ensures forall q :: q in files && q != p ==> r[q] == files[q]
  {
    var before := if p in files then files[p].content else "";
    files[p := FileEntry(before + line, now)]
  }

  /** What `json` does once the line is encoded: the rotation step runs first and its exception
      propagates; then the line is appended to the log file. A missing directory is caught and
      answered false; a directory in the file's place raises. */
  predicate JsonWritten(before: map<string, FileEntry>, after: map<string, FileEntry>, dirs: set<string>,
                        cfg: Sections, root: string, now: int, line: string, r: Result<bool>)
  {
    var abs := LogPath(cfg, root);
    match Rotate(before, cfg, root, now)
    case Err(e) => r == Err(e) && after == before
    case Ok(rotated) =>
      if DirName(abs) !in dirs then r == Ok(false) && after == rotated
      else if abs in dirs then r == Err("IsADirectoryError") && after == rotated
      else r == Ok(true) && after == Appended(rotated, abs, line, now)
  }

  /** `json` answers true exactly when the rotation succeeds and the log file can be opened, and
      then the log file ends with the new line while every other file is as the rotation left it;
      false leaves the files as the rotation left them. */
  lemma JsonOutcome(before: map<string, FileEntry>, after: map<string, FileEntry>, dirs: set<string>,
                    cfg: Sections, root: string, now: int, line: string, r: Result<bool>)
    requires JsonWritten(before, after, dirs, cfg, root, now, line, r)
    ensures var rotated := Rotate(before, cfg, root, now);
            var abs := LogPath(cfg, root);
            (r == Ok(true) <==> rotated.Ok? && CanWrite(dirs, abs))
            && (r == Ok(false) <==> rotated.Ok? && DirName(abs) !in dirs)
            && (r.Err? ==> after == (if rotated.Ok? then rotated.value else before))
            && (r == Ok(false) ==> after == rotated.value)
            && (r == Ok(true) ==>
                  abs in after && EndsWith(after[abs].content, line)
                  && forall q :: q in rotated.value && q != abs ==> q in after && after[q] == rotated.value[q])
  {
    var abs := LogPath(cfg, root);
    if r == Ok(true) {
      var rotated := Rotate(before, cfg, root, now).value;
      var content := after[abs].content;
      assert content[|content| - |line|..] == line;
    }
  }

  /** `json`: encodes the entry, finds (and maybe rotates) the log file, and appends exactly one
      line. */
  method Json(host: Host, entry: LogEntry, cfg: Sections, encode: map<string, Value> -> string) returns (r: Result<bool>)
    requires "kwargs" in entry.attrs && entry.attrs["kwargs"].VMap?
    modifies host`files, entry
    ensures JsonWritten(old(host.files), host.files, host.dirs, cfg, host.root, host.now,
                        encode(Flatten(old(entry.attrs))) + "\n", r)
  {
    var fields := entry.ToJsonFields();
    var content := encode(fields);
    var path := GetLogFilename(host, cfg);
    if path.Err? {
      return Err(path.error);
    }
    var p := path.value;
    if DirName(p) !in host.dirs {
      return Ok(false);
    }
    if p in host.dirs {
      return Err("IsADirectoryError");
    }
    host.files := Appended(host.files, p, content + "\n", host.now);
    r := Ok(true);
  }

  /** `log`: builds the entry (the sensor name is `str()` of its configuration value) and hands
      it to the configured method, but only to `json` or `stdout`; any other method (or none)
      writes nothing and gives false. `stdout` prints the entry and always gives true. */
  method Log(host: Host, call: LogCall, cfg: Sections, encode: map<string, Value> -> string) returns (r: Result<bool>)
    modifies host`files
    ensures var selected := GetValue(cfg, "log", "method");
            (selected != Some(Text("json")) && selected != Some(Text("stdout")) ==> r == Ok(false) && host.files == old(host.files))
            && (selected == Some(Text("stdout")) ==> r == Ok(true) && host.files == old(host.files))
            && (selected == Some(Text("json")) ==>
                  var line := encode(Flatten(EntryAttributes(call, host.now, StrOf(GetValue(cfg, "honeypot", "sensor"))))) + "\n";
                  JsonWritten(old(host.files), host.files, host.dirs, cfg, host.root, host.now, line, r))
  {
    var sensor := StrOf(GetValue(cfg, "honeypot", "sensor"));
    var entry := new LogEntry(call, host.now, sensor);
    var selected := GetValue(cfg, "log", "method");
    if selected == Some(Text("json")) {
      r := Json(host, entry, cfg, encode);
    } else if selected == Some(Text("stdout")) {
      r := Ok(true);
    } else {
      r := Ok(false);
    }
  }
}
