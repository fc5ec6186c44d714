/** The machine the honeypot runs on, as far as the core touches it: files and directories
    under the installation root (also the working directory), the running processes, and the
    journal of calls made to the logging entry point. */
module Host {
  import opened Common
  import opened Paths

  datatype FileEntry = FileEntry(content: string, mtime: int)

  /** The arguments of one call to `logging.log` (the timestamp is the host clock when written). */
  datatype LogCall = LogCall(eventId: string, message: string, isError: bool, srcIp: string, kwargs: map<string, Value>)

  /** Whether opening `p` for writing succeeds: its parent directory exists and `p` is not a
      directory itself. */
  predicate CanWrite(dirs: set<string>, p: string)
  {
    DirName(p) in dirs && p !in dirs
  }

  class Host {
    const root: string
    var files: map<string, FileEntry>
    var dirs: set<string>
    var now: int
    var running: set<nat>
    var journal: seq<LogCall>

    constructor (root: string, now: int)
      ensures this.root == root && this.now == now
      ensures files == map[] && dirs == {root} && running == {} && journal == []
    {
      this.root := root;
      this.now := now;
      files := map[];
      dirs := {root};
      running := {};
      journal := [];
    }

    /** `os.path.exists`: a file or a directory. */
    predicate Exists(p: string)
      reads this
    {
      p in files || p in dirs
    }

    /** Opening `p` for writing and writing `content`: fails when the parent directory is
        missing or `p` is a directory; otherwise replaces the file and stamps it with the clock. */
    method Write(p: string, content: string) returns (ok: bool)
      modifies this`files
      ensures ok == CanWrite(dirs, p)
      ensures files == if ok then old(files)[p := FileEntry(content, now)] else old(files)
    {
      ok := DirName(p) in dirs && p !in dirs;
      if ok {
        files := files[p := FileEntry(content, now)];
      }
    }
  }
}
