/** The `catchfile` action: stores every file uploaded with a request in the download directory
    under a name derived from the request, and writes one report describing them. */
module CatchFile {
  import opened Common
  import opened Paths
  import opened Config
  import opened Host
  import opened Web
  import Logging

  /** `{hash}_{field}`: the stored name of the file uploaded in `field`. */
  function StoredName(hash: int, field: string): string
  {
    IntToString(hash) + "_" + field
  }

  /** The configured download directory as `run` resolves it under the root. */
  function DownloadDir(root: string, cfg: Sections): string
  {
    Join(root, StrOf(GetValue(cfg, "honeypot", "downloadDir")))
  }

  /** Whether the download directory is configured (truthy) and exists as a directory. */
  predicate Usable(root: string, dirs: set<string>, cfg: Sections)
  {
    ConfigTruthy(GetValue(cfg, "honeypot", "downloadDir")) && DownloadDir(root, cfg) in dirs
  }

  function StorePath(dir: string, hash: int, field: string): string
  {
    Join(dir, StoredName(hash, field))
  }

  function ReportPath(dir: string, hash: int): string
  {
    Join(dir, "report_" + IntToString(hash) + ".txt")
  }

  /** The report block of one stored upload. */
  function ReportBlock(upload: Upload, stored: string): string
  {
    "Filename: " + upload.filename + "\n" + "Stored filename: " + stored + "\n"
    + "Size: " + IntToString(upload.contentLength) + "\n" + "Type: " + upload.contentType + "\n" + "\n"
  }

  /** The report of the uploads, one block per upload in order. */
  function Report(uploads: seq<(string, Upload)>, hash: int): string
    decreases |uploads|
  {
    if uploads == [] then ""
    else
      var (field, upload) := uploads[|uploads| - 1];
      Report(uploads[..|uploads| - 1], hash) + ReportBlock(upload, StoredName(hash, field))
  }

  /** The files after the uploads were saved one after another. */
  function Saved(files: map<string, FileEntry>, dir: string, hash: int, uploads: seq<(string, Upload)>, now: int)
    : map<string, FileEntry>
    decreases |uploads|
  {
    if uploads == [] then files
    else
      var n := |uploads|;
      var (field, upload) := uploads[n - 1];
      Saved(files, dir, hash, uploads[..n - 1], now)[StorePath(dir, hash, field) := FileEntry(upload.content, now)]
  }

  /** Saving stores every upload's path. */
  lemma {:induction false} SavedAll(files: map<string, FileEntry>, dir: string, hash: int,
                                    uploads: seq<(string, Upload)>, now: int)
    ensures forall i :: 0 <= i < |uploads| ==> StorePath(dir, hash, uploads[i].0) in Saved(files, dir, hash, uploads, now)
    decreases |uploads|
  {
    if uploads != [] {
      var n := |uploads|;
      var prefix := uploads[..n - 1];
      SavedAll(files, dir, hash, prefix, now);
      assert forall i :: 0 <= i < n - 1 ==> prefix[i] == uploads[i];
    }
  }

  /** Saving adds no path but the stored ones, and leaves every other file as it was. */
  lemma {:induction false} SavedOnly(files: map<string, FileEntry>, dir: string, hash: int,
                                     uploads: seq<(string, Upload)>, now: int, p: string)
    requires forall i :: 0 <= i < |uploads| ==> p != StorePath(dir, hash, uploads[i].0)
    ensures p in Saved(files, dir, hash, uploads, now) <==> p in files
    ensures p in files ==> Saved(files, dir, hash, uploads, now)[p] == files[p]
    decreases |uploads|
  {
    if uploads != [] {
      var n := |uploads|;
      var prefix := uploads[..n - 1];
      assert forall i :: 0 <= i < n - 1 ==> prefix[i] == uploads[i];
      SavedOnly(files, dir, hash, prefix, now, p);
    }
  }

  /** The number of uploads the loop saves before it stops: it stops at the first upload
      without a file name and at the first whose stored file cannot be written. */
  function Stop(dirs: set<string>, dir: string, hash: int, uploads: seq<(string, Upload)>): (k: nat)
    ensures k <= |uploads|
    decreases |uploads|
  {
    if uploads == [] then 0
    else if uploads[0].1.filename == "" || !CanWrite(dirs, StorePath(dir, hash, uploads[0].0)) then 0
    else 1 + Stop(dirs, dir, hash, uploads[1..])
  }

  /** Every upload before the stop has a file name and a writable stored path; the upload at the
      stop lacks one of the two. */
  lemma {:induction false} StopMeans(dirs: set<string>, dir: string, hash: int, uploads: seq<(string, Upload)>)
    ensures var k := Stop(dirs, dir, hash, uploads);
            forall i :: 0 <= i < k ==> uploads[i].1.filename != "" && CanWrite(dirs, StorePath(dir, hash, uploads[i].0))
    ensures var k := Stop(dirs, dir, hash, uploads);
            k < |uploads| ==> uploads[k].1.filename == "" || !CanWrite(dirs, StorePath(dir, hash, uploads[k].0))
    decreases |uploads|
  {
    if uploads != [] && uploads[0].1.filename != "" && CanWrite(dirs, StorePath(dir, hash, uploads[0].0)) {
      StopMeans(dirs, dir, hash, uploads[1..]);
      var k := Stop(dirs, dir, hash, uploads);
      forall i | 0 <= i < k
        ensures uploads[i].1.filename != "" && CanWrite(dirs, StorePath(dir, hash, uploads[i].0))
      {
        if i > 0 {
          assert uploads[i] == uploads[1..][i - 1];
        }
      }
      if k < |uploads| {
        assert uploads[k] == uploads[1..][k - 1];
      }
    }
  }

  /** The journal entry made for each saved file. */
  function UploadCall(report: string, request: Request): LogCall
  {
    LogCall(Logging.EventUpload, "Uploaded file with report " + report, false, Logging.PyStr(request.remoteAddr), map[])
  }

  /** The journal entries of `k` saved files. */
  function UploadCalls(k: nat, report: string, request: Request): (calls: seq<LogCall>)
    ensures |calls| == k
  {
    if k == 0 then [] else UploadCalls(k - 1, report, request) + [UploadCall(report, request)]
  }

  /** Each of them is the upload entry. */
  lemma {:induction false} UploadCallsAll(k: nat, report: string, request: Request)
    ensures forall i :: 0 <= i < k ==> UploadCalls(k, report, request)[i] == UploadCall(report, request)
  {
    if k > 0 {
      UploadCallsAll(k - 1, report, request);
    }
  }

  /** The uploads the loop of `run` visits: one per field, the first file sent under it. */
  function Uploads(request: Request): seq<(string, Upload)>
  {
    Items(request.files)
  }

  /** What `run` answers, the files afterwards, and the journal entries it adds. */
  function Catch(files: map<string, FileEntry>, dirs: set<string>, root: string, cfg: Sections,
                 request: Request, now: int): (Outcome, map<string, FileEntry>, seq<LogCall>)
  {
    var uploads := Uploads(request);
    if uploads == [] then (Continue, files, [])
    else if !Usable(root, dirs, cfg) then (Respond(Abort(404)), files, [])
    else
      var dir := DownloadDir(root, cfg);
      var k := Stop(dirs, dir, request.hash, uploads);
      var saved := Saved(files, dir, request.hash, uploads[..k], now);
      var report := ReportPath(dir, request.hash);
      var calls := UploadCalls(k, report, request);
      if k < |uploads| then
        (if uploads[k].1.filename == "" then Respond(Abort(404)) else Raise("FileNotFoundError"), saved, calls)
      else if CanWrite(dirs, report) then
        (Continue, saved[report := FileEntry(Report(uploads, request.hash), now)], calls)
      else (Raise("FileNotFoundError"), saved, calls)
  }

  /** The run either goes on, answers 404 or raises; without uploads it changes nothing; with an
      unusable download directory it answers 404 and changes nothing; it goes on only when every
      upload has a file name. */
  lemma CatchShape(files: map<string, FileEntry>, dirs: set<string>, root: string, cfg: Sections,
                   request: Request, now: int)
    ensures var r := Catch(files, dirs, root, cfg, request, now);
            (r.0 == Continue || r.0 == Respond(Abort(404)) || r.0.Raise?)
            && (request.files == [] ==> r == (Continue, files, []))
            && (request.files != [] && !Usable(root, dirs, cfg) ==> r == (Respond(Abort(404)), files, []))
            && (r.0 == Continue ==> forall i :: 0 <= i < |Uploads(request)| ==> Uploads(request)[i].1.filename != "")
  {
    if request.files != [] && Usable(root, dirs, cfg) {
      StopMeans(dirs, DownloadDir(root, cfg), request.hash, Uploads(request));
    }
  }

  /** A successful run stores every upload under its field's name, writes the report listing
      them all in order, and logs one upload entry per file. */
  lemma CatchStoresAll(files: map<string, FileEntry>, dirs: set<string>, root: string, cfg: Sections,
                       request: Request, now: int)
    requires request.files != []
    requires Catch(files, dirs, root, cfg, request, now).0 == Continue
    ensures var (_, after, calls) := Catch(files, dirs, root, cfg, request, now);
            var dir := DownloadDir(root, cfg);
            Usable(root, dirs, cfg)
            && (forall i :: 0 <= i < |Uploads(request)| ==> StorePath(dir, request.hash, Uploads(request)[i].0) in after)
            && ReportPath(dir, request.hash) in after
            && after[ReportPath(dir, request.hash)].content == Report(Uploads(request), request.hash)
            && |calls| == |Uploads(request)|
            && forall i :: 0 <= i < |calls| ==> calls[i].eventId == Logging.EventUpload && !calls[i].isError
  {
    var uploads := Uploads(request);
    assert uploads != [];
    var dir := DownloadDir(root, cfg);
    var k := Stop(dirs, dir, request.hash, uploads);
    StopMeans(dirs, dir, request.hash, uploads);
    assert uploads[..k] == uploads;
    SavedAll(files, dir, request.hash, Uploads(request), now);
    UploadCallsAll(k, ReportPath(dir, request.hash), request);
  }

  /** A field sent more than once is stored once, yet a successful run leaves a stored file for
      every field of the request. */
  lemma CatchStoresEveryField(files: map<string, FileEntry>, dirs: set<string>, root: string, cfg: Sections,
                              request: Request, now: int)
    requires request.files != []
    requires Catch(files, dirs, root, cfg, request, now).0 == Continue
    ensures forall j :: 0 <= j < |request.files| ==>
              StorePath(DownloadDir(root, cfg), request.hash, request.files[j].0) in Catch(files, dirs, root, cfg, request, now).1
  {
    CatchStoresAll(files, dirs, root, cfg, request, now);
    ItemsCover(request.files);
    var after := Catch(files, dirs, root, cfg, request, now).1;
    forall j | 0 <= j < |request.files|
      ensures StorePath(DownloadDir(root, cfg), request.hash, request.files[j].0) in after
    {
      var i :| 0 <= i < |Uploads(request)| && Uploads(request)[i].0 == request.files[j].0;
    }
  }

  /** A 404 on a later upload keeps what was stored before it, and writes no report. */
  lemma AbortKeepsEarlierUploads(files: map<string, FileEntry>, dirs: set<string>, root: string, cfg: Sections,
                                 request: Request, now: int)
    requires Catch(files, dirs, root, cfg, request, now).0 == Respond(Abort(404))
    requires Usable(root, dirs, cfg)
    requires ReportPath(DownloadDir(root, cfg), request.hash) !in files
    ensures var (_, after, _) := Catch(files, dirs, root, cfg, request, now);
            var dir := DownloadDir(root, cfg);
            var k := Stop(dirs, dir, request.hash, Uploads(request));
            k < |Uploads(request)| && Uploads(request)[k].1.filename == ""
            && (forall i :: 0 <= i < k ==> StorePath(dir, request.hash, Uploads(request)[i].0) in after)
            && (ReportPath(dir, request.hash) in after ==> exists i :: 0 <= i < k && ReportPath(dir, request.hash) == StorePath(dir, request.hash, Uploads(request)[i].0))
  {
    var dir := DownloadDir(root, cfg);
    var k := Stop(dirs, dir, request.hash, Uploads(request));
    var prefix := Uploads(request)[..k];
    StopMeans(dirs, dir, request.hash, Uploads(request));
    assert forall i :: 0 <= i < k ==> prefix[i] == Uploads(request)[i];
    SavedAll(files, dir, request.hash, prefix, now);
    var report := ReportPath(dir, request.hash);
    if forall i :: 0 <= i < k ==> report != StorePath(dir, request.hash, prefix[i].0) {
      SavedOnly(files, dir, request.hash, prefix, now, report);
    }
  }

  /** The loop stops where the first bad upload is. */
  lemma StopAt(dirs: set<string>, dir: string, hash: int, uploads: seq<(string, Upload)>, i: nat)
    requires i < |uploads| && i <= Stop(dirs, dir, hash, uploads)
    requires uploads[i].1.filename == "" || !CanWrite(dirs, StorePath(dir, hash, uploads[i].0))
    ensures Stop(dirs, dir, hash, uploads) == i
  {
    StopMeans(dirs, dir, hash, uploads);
  }

  /** The run that stops at upload `i` with the directory usable. */
  lemma CatchStopsAt(files: map<string, FileEntry>, dirs: set<string>, root: string, cfg: Sections,
                     request: Request, now: int, i: nat)
    requires Usable(root, dirs, cfg)
    requires i < |Uploads(request)| && i <= Stop(dirs, DownloadDir(root, cfg), request.hash, Uploads(request))
    requires Uploads(request)[i].1.filename == ""
             || !CanWrite(dirs, StorePath(DownloadDir(root, cfg), request.hash, Uploads(request)[i].0))
    ensures var dir := DownloadDir(root, cfg);
            Catch(files, dirs, root, cfg, request, now)
            == (if Uploads(request)[i].1.filename == "" then Respond(Abort(404)) else Raise("FileNotFoundError"),
                Saved(files, dir, request.hash, Uploads(request)[..i], now),
                UploadCalls(i, ReportPath(dir, request.hash), request))
  {
    StopAt(dirs, DownloadDir(root, cfg), request.hash, Uploads(request), i);
  }

  /** The run that saved every upload. */
  lemma CatchCompletes(files: map<string, FileEntry>, dirs: set<string>, root: string, cfg: Sections,
                       request: Request, now: int)
    requires request.files != [] && Usable(root, dirs, cfg)
    requires Stop(dirs, DownloadDir(root, cfg), request.hash, Uploads(request)) == |Uploads(request)|
    ensures var dir := DownloadDir(root, cfg);
            var saved := Saved(files, dir, request.hash, Uploads(request), now);
            var report := ReportPath(dir, request.hash);
            var calls := UploadCalls(|Uploads(request)|, report, request);
            Catch(files, dirs, root, cfg, request, now)
            == if CanWrite(dirs, report)
               then (Continue, saved[report := FileEntry(Report(Uploads(request), request.hash), now)], calls)
               else (Raise("FileNotFoundError"), saved, calls)
  {
    assert Uploads(request)[..|Uploads(request)|] == Uploads(request);
  }

  /** How the loop stops at upload `i`: a missing file name or an unusable download directory
      answers 404; an unwritable stored path raises. */
  predicate Halted(root: string, dirs: set<string>, cfg: Sections, request: Request, i: nat, o: Outcome)
    requires i < |Uploads(request)|
  {
    var upload := Uploads(request)[i].1;
    if upload.filename == "" || !Usable(root, dirs, cfg) then o == Respond(Abort(404))
    else !CanWrite(dirs, StorePath(DownloadDir(root, cfg), request.hash, Uploads(request)[i].0))
         && o == Raise("FileNotFoundError")
  }

  /** A loop halted at upload `i` ends the run as `Catch` says. */
  lemma CatchHalted(files: map<string, FileEntry>, dirs: set<string>, root: string, cfg: Sections,
                    request: Request, now: int, i: nat, o: Outcome)
    requires i < |Uploads(request)|
    requires i > 0 ==> Usable(root, dirs, cfg) && i <= Stop(dirs, DownloadDir(root, cfg), request.hash, Uploads(request))
    requires Halted(root, dirs, cfg, request, i, o)
    ensures var dir := DownloadDir(root, cfg);
            Catch(files, dirs, root, cfg, request, now)
            == (o, Saved(files, dir, request.hash, Uploads(request)[..i], now), UploadCalls(i, ReportPath(dir, request.hash), request))
  {
    if Usable(root, dirs, cfg) {
      CatchStopsAt(files, dirs, root, cfg, request, now, i);
    } else {
      assert Uploads(request)[..i] == [];
    }
  }

  /** What `run`'s loop has done after saving the first `i` uploads, starting from `files0` and
      `journal0`: those uploads are stored and logged, the report's name is known once one was
      saved, and the report holds their blocks. */
  ghost predicate Progress(files0: map<string, FileEntry>, journal0: seq<LogCall>,
                           files: map<string, FileEntry>, journal: seq<LogCall>,
                           root: string, dirs: set<string>, now: int, cfg: Sections,
                           request: Request, i: nat, reportName: Option<string>, reportContent: string)
    requires i <= |Uploads(request)|
  {
    var dir := DownloadDir(root, cfg);
    (i > 0 ==> Usable(root, dirs, cfg) && i <= Stop(dirs, dir, request.hash, Uploads(request)))
    && (files, journal, reportName, reportContent)
       == (Saved(files0, dir, request.hash, Uploads(request)[..i], now),
           journal0 + UploadCalls(i, ReportPath(dir, request.hash), request),
           if i == 0 then None else Some(ReportPath(dir, request.hash)),
           Report(Uploads(request)[..i], request.hash))
  }

  /** One pass of `run`'s loop: checks upload `i` and the download directory, then saves the
      upload and logs it. It either halts the run, changing nothing, or makes one more step of
      progress. */
  method SaveUpload(host: Host, cfg: Sections, request: Request, i: nat, ghost files0: map<string, FileEntry>,
                    ghost journal0: seq<LogCall>, reportName: Option<string>, reportContent: string)
    returns (stop: Option<Outcome>, name: Option<string>, content: string)
    requires i < |Uploads(request)|
    requires Progress(files0, journal0, host.files, host.journal, host.root, host.dirs, host.now, cfg,
                      request, i, reportName, reportContent)
    modifies host`files, host`journal
    ensures stop.Some? ==> Halted(host.root, host.dirs, cfg, request, i, stop.value)
                           && host.files == old(host.files) && host.journal == old(host.journal)
                           && Progress(files0, journal0, host.files, host.journal, host.root, host.dirs, host.now,
                                       cfg, request, i, reportName, reportContent)
    ensures stop.None? ==> Progress(files0, journal0, host.files, host.journal, host.root, host.dirs, host.now, cfg,
                                    request, i + 1, name, content)
  {
    name, content := reportName, reportContent;
    ghost var dir := DownloadDir(host.root, cfg);
    var uploads := Uploads(request);
    var (field, upload) := uploads[i];
    if upload.filename == "" {
      return Some(Respond(Abort(404))), name, content;
    }
    var stored := StoredName(request.hash, field);
    var downloadDir := GetValue(cfg, "honeypot", "downloadDir");
    if !ConfigTruthy(downloadDir) {
      return Some(Respond(Abort(404))), name, content;
    }
    var absoluteDir := Join(host.root, StrOf(downloadDir));
    if absoluteDir !in host.dirs {
      return Some(Respond(Abort(404))), name, content;
    }
    if name.None? {
      name := Some(Join(absoluteDir, "report_" + IntToString(request.hash) + ".txt"));
    }
    var filePath := Join(absoluteDir, stored);
    assert absoluteDir == dir && filePath == StorePath(dir, request.hash, field);
    var ok := host.Write(filePath, upload.content);
    if !ok {
      return Some(Raise("FileNotFoundError")), name, content;
    }
    NextStop(host.dirs, dir, request.hash, uploads, i);
    SaveStep(files0, dir, request.hash, uploads, i, host.now);
    content := content + ReportBlock(upload, stored);
    var call := LogCall(Logging.EventUpload, "Uploaded file with report " + name.value,
                        filePath !in host.files, Logging.PyStr(request.remoteAddr), map[]);
    assert call == UploadCall(ReportPath(dir, request.hash), request);
    JournalStep(journal0, i, ReportPath(dir, request.hash), request);
    host.journal := host.journal + [call];
    stop := None;
  }

  /** `run`'s loop over the uploaded files: it either halts at upload `at` having saved the ones
      before it, or saves every upload. */
  method SaveUploads(host: Host, cfg: Sections, request: Request)
    returns (stop: Option<Outcome>, reportName: Option<string>, reportContent: string, ghost at: nat)
    modifies host`files, host`journal
    ensures stop.Some? ==> at < |Uploads(request)| && Halted(host.root, host.dirs, cfg, request, at, stop.value)
                           && Progress(old(host.files), old(host.journal), host.files, host.journal, host.root,
                                       host.dirs, host.now, cfg, request, at, reportName, reportContent)
    ensures stop.None? ==> Progress(old(host.files), old(host.journal), host.files, host.journal, host.root,
                                    host.dirs, host.now, cfg, request, |Uploads(request)|, reportName, reportContent)
  {
    var uploads := Uploads(request);
    reportContent := "";
    reportName := None;
    ghost var files0, journal0 := host.files, host.journal;
    ProgressStart(files0, journal0, host.root, host.dirs, host.now, cfg, request);
    var i := 0;
    at := 0;
    stop := None;
    while i < |uploads| && stop.None?
      invariant 0 <= i <= |uploads|
      invariant stop.None? ==> Progress(files0, journal0, host.files, host.journal, host.root, host.dirs, host.now,
                                        cfg, request, i, reportName, reportContent)
      invariant stop.Some? ==> at < |uploads| && Halted(host.root, host.dirs, cfg, request, at, stop.value)
                               && Progress(files0, journal0, host.files, host.journal, host.root, host.dirs,
                                           host.now, cfg, request, at, reportName, reportContent)
      decreases |uploads| - i, if stop.None? then 1 else 0
    {
      var name, content;
      stop, name, content := SaveUpload(host, cfg, request, i, files0, journal0, reportName, reportContent);
      if stop.Some? {
        at := i;
      } else {
        reportName, reportContent := name, content;
        i := i + 1;
      }
    }
  }

  /** Before the loop nothing is saved, logged or reported. */
  lemma ProgressStart(files0: map<string, FileEntry>, journal0: seq<LogCall>, root: string, dirs: set<string>,
                      now: int, cfg: Sections, request: Request)
    ensures Progress(files0, journal0, files0, journal0, root, dirs, now, cfg, request, 0, None, "")
  {
    assert journal0 + [] == journal0;
  }

  /** `run`: the loop over the uploaded files, then the report. */
  method Run(host: Host, cfg: Sections, request: Request) returns (o: Outcome)
    modifies host`files, host`journal
    ensures o == Catch(old(host.files), host.dirs, host.root, cfg, request, host.now).0
    ensures host.files == Catch(old(host.files), host.dirs, host.root, cfg, request, host.now).1
    ensures host.journal == old(host.journal) + Catch(old(host.files), host.dirs, host.root, cfg, request, host.now).2
  {
    ghost var before := host.files;
    var stop, reportName, reportContent, at := SaveUploads(host, cfg, request);
    if stop.Some? {
      CatchHalted(before, host.dirs, host.root, cfg, request, host.now, at, stop.value);
      return stop.value;
    }
    WholePrefix(Uploads(request));
    if reportName.Some? {
      CatchCompletes(before, host.dirs, host.root, cfg, request, host.now);
      var ok := host.Write(reportName.value, reportContent);
      if !ok {
        return Raise("FileNotFoundError");
      }
    } else {
      CatchShape(before, host.dirs, host.root, cfg, request, host.now);
    }
    o := Continue;
  }

  lemma JournalStep(journal: seq<LogCall>, i: nat, report: string, request: Request)
    ensures journal + UploadCalls(i, report, request) + [UploadCall(report, request)]
            == journal + UploadCalls(i + 1, report, request)
  {
  }

  lemma WholePrefix<T>(s: seq<T>)
    ensures s[..|s|] == s
  {
  }

  lemma SaveStep(files: map<string, FileEntry>, dir: string, hash: int, uploads: seq<(string, Upload)>, i: nat, now: int)
    requires i < |uploads|
    ensures Saved(files, dir, hash, uploads[..i + 1], now)
            == Saved(files, dir, hash, uploads[..i], now)[StorePath(dir, hash, uploads[i].0) := FileEntry(uploads[i].1.content, now)]
    ensures Report(uploads[..i + 1], hash) == Report(uploads[..i], hash) + ReportBlock(uploads[i].1, StoredName(hash, uploads[i].0))
  {
    assert uploads[..i + 1][..i] == uploads[..i];
  }

  /** A good upload `i` lets the loop go on to the next one. */
  lemma NextStop(dirs: set<string>, dir: string, hash: int, uploads: seq<(string, Upload)>, i: nat)
    requires i < |uploads| && i <= Stop(dirs, dir, hash, uploads)
    requires uploads[i].1.filename != "" && CanWrite(dirs, StorePath(dir, hash, uploads[i].0))
    ensures i + 1 <= Stop(dirs, dir, hash, uploads)
  {
    StopMeans(dirs, dir, hash, uploads);
  }
}
