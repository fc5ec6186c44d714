/** The `video` action: validates the route's `video` block, starts one ffmpeg process per video
    (guarded by a lock file holding its process id) and always answers with the servefile action
    on the HLS playlist. */
module Video {
  import opened Common
  import opened Paths
  import opened Host
  import opened Web
  import opened Runtime
  import ServeFile
  import Logging

  /** The checks made before anything happens: the block must exist and hold `video` and
      `mode`, the mode must be `"m3u8"`, and the video must be a path string. A block of another
      JSON type fails as Python's `in` and indexing fail on it: a string or a list is searched
      for the two names before indexing it raises. */
  function Validate(route: Route): (r: Result<string>)
    ensures r.Ok? <==> "video" in route.blocks && route.blocks["video"].VMap?
                       && "video" in route.blocks["video"].fields && "mode" in route.blocks["video"].fields
                       && route.blocks["video"].fields["mode"] == VStr("m3u8")
                       && route.blocks["video"].fields["video"].VStr?
    ensures r.Ok? ==> r.value == route.blocks["video"].fields["video"].s
    ensures "video" !in route.blocks ==> r == Err("KeyError")
    ensures "video" in route.blocks && route.blocks["video"].VMap? ==>
              var block := route.blocks["video"].fields;
              ("video" !in block ==> r == Err("Video file missing"))
              && ("video" in block && "mode" !in block ==> r == Err("No mode selected"))
              && ("video" in block && "mode" in block && block["mode"] != VStr("m3u8") ==> r == Err("Invalid mode supplied"))
  {
    if "video" !in route.blocks then Err("KeyError")
    else
      match route.blocks["video"]
      case VMap(block) =>
        if "video" !in block then Err("Video file missing")
        else if "mode" !in block then Err("No mode selected")
        else if block["mode"] != VStr("m3u8") then Err("Invalid mode supplied")
        else if !block["video"].VStr? then Err("TypeError")
        else Ok(block["video"].s)
      case VStr(s) =>
        if !Contains(s, "video") then Err("Video file missing")
        else if !Contains(s, "mode") then Err("No mode selected")
        else Err("TypeError")
      case VList(items) =>
        if VStr("video") !in items then Err("Video file missing")
        else if VStr("mode") !in items then Err("No mode selected")
        else Err("TypeError")
      case _ => Err("TypeError")
  }

  /** The video's file name without its suffix. */
  function StemOf(video: string): string
  {
    Stem(BaseName(video))
  }

  /** `ul/{stem}.m3u8`, relative to the working directory. */
  function PlaylistName(video: string): string
  {
    "ul/" + StemOf(video) + ".m3u8"
  }

  /** `ul/{stem}.lock`, relative to the working directory. */
  function LockName(video: string): string
  {
    "ul/" + StemOf(video) + ".lock"
  }

  /** The playlist and the lock of one video are two different files of the `ul` directory,
      and both end in their own suffix. */
  lemma {:induction false} PlaylistBesideLock(video: string)
    ensures PlaylistName(video) != LockName(video)
    ensures EndsWith(PlaylistName(video), ".m3u8") && EndsWith(LockName(video), ".lock")
    ensures PlaylistName(video)[..3] == "ul/" && LockName(video)[..3] == "ul/"
  {
    var stem := StemOf(video);
    var p, l := "ul/" + stem + ".m3u8", "ul/" + stem + ".lock";
    assert p[|stem| + 4] == 'm' && l[|stem| + 4] == 'l';
    assert p[|p| - 5..] == ".m3u8" && l[|l| - 5..] == ".lock";
  }

  /** The route handed to servefile: the playlist, with template and placeholder processing
      switched off. */
  function StreamRoute(video: string): Route
  {
    Route([], None, map["servefile" := VMap(map["process_placeholder" := VBool(false),
                                                 "process_template" := VBool(false),
                                                 "file" := VStr(PlaylistName(video))])])
  }

  /** The hand-off always sends the playlist as it is: no 404, no rendering, no watermark. */
  lemma {:induction false} StreamSendsPlaylist(files: map<string, FileEntry>, dirs: set<string>, root: string,
                                              site: Site, video: string, request: Request)
    ensures ServeFile.Decide(files, dirs, root, site, "", StreamRoute(video), request, 0)
            == ServeFile.Send(Join(root, PlaylistName(video)))
  {
    var block := StreamRoute(video).blocks["servefile"].fields;
    assert !ServeFile.Flag(block, "process_template") && !ServeFile.Flag(block, "process_placeholders");
    assert "watermark" !in block;
    assert ServeFile.SelectMode(block) == ServeFile.Raw;
  }

  /** What the hand-off answers: the playlist when it exists, otherwise the failure to open it. */
  function Streamed(files: map<string, FileEntry>, root: string, video: string): (o: Outcome)
    ensures o == Respond(SendFile(Join(root, PlaylistName(video)))) || o == Raise("FileNotFoundError")
  {
    var playlist := Join(root, PlaylistName(video));
    if playlist in files then Respond(SendFile(playlist)) else Raise("FileNotFoundError")
  }

  /** Whatever servefile does with the stream route, it changes no file and answers `Streamed`. */
  lemma {:induction false} StreamServed(before: map<string, FileEntry>, after: map<string, FileEntry>, dirs: set<string>,
                                        root: string, now: int, site: Site, video: string, request: Request, o: Outcome)
    requires ServeFile.Served(before, after, dirs, root, now, site, "", StreamRoute(video), request, 0, o)
    ensures after == before && o == Streamed(before, root, video)
  {
    StreamSendsPlaylist(before, dirs, root, site, video, request);
  }

  /** The journal entry made when ffmpeg was started. */
  function StartCall(pid: nat): LogCall
  {
    Logging.WrapperCall(Logging.EventFfmpegStarted, "Started ffmpeg process with PID " + NatToString(pid), None, false)
  }

  /** What `run` does, from the files, processes and journal before it to those after it:
      nothing but a raise when the block is invalid; with a lock in place only the hand-off;
      otherwise ffmpeg is started and its process id written to the lock before the hand-off. */
  predicate Handled(files0: map<string, FileEntry>, files1: map<string, FileEntry>, running0: set<nat>,
                    running1: set<nat>, journal0: seq<LogCall>, journal1: seq<LogCall>, dirs: set<string>,
                    root: string, now: int, route: Route, pid: nat, o: Outcome)
  {
    match Validate(route)
    case Err(e) => o == Raise(e) && files1 == files0 && running1 == running0 && journal1 == journal0
    case Ok(video) =>
      var lock := Join(root, LockName(video));
      if lock in files0 then
        files1 == files0 && running1 == running0 && journal1 == journal0 && o == Streamed(files0, root, video)
      else
        running1 == running0 + {pid}
        && if CanWrite(dirs, lock) then
             files1 == files0[lock := FileEntry(NatToString(pid), now)]
             && journal1 == journal0 + [StartCall(pid)]
             && o == Streamed(files1, root, video)
           else
             files1 == files0 && journal1 == journal0 && o == Raise("FileNotFoundError")
  }

  /** `run`. `pid` is the process id the launch of ffmpeg returns. */
  method Run(host: Host, site: Site, route: Route, request: Request, pid: nat) returns (o: Outcome)
    modifies host`files, host`running, host`journal
    ensures old(host.files).Keys <= host.files.Keys
    ensures Handled(old(host.files), host.files, old(host.running), host.running, old(host.journal), host.journal,
                    host.dirs, host.root, host.now, route, pid, o)
  {
    var valid := Validate(route);
    if valid.Err? {
      return Raise(valid.error);
    }
    var video := valid.value;
    var lock := Join(host.root, LockName(video));
    if lock !in host.files {
      host.running := host.running + {pid};
      var ok := host.Write(lock, NatToString(pid));
      if !ok {
        return Raise("FileNotFoundError");
      }
      host.journal := host.journal + [StartCall(pid)];
    }
    o := HandOff(host, site, video, request);
  }

  /** The call to servefile that ends `run`. */
  method HandOff(host: Host, site: Site, video: string, request: Request) returns (o: Outcome)
    modifies host`files
    ensures host.files == old(host.files) && o == Streamed(host.files, host.root, video)
  {
    ghost var files := host.files;
    o := ServeFile.Run(host, site, "", StreamRoute(video), request, 0);
    StreamServed(files, host.files, host.dirs, host.root, host.now, site, video, request, o);
  }
}
