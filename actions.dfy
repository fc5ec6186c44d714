/** The action registry: five action names, each dispatched to its module's `run`; any other
    name does nothing. */
module Actions {
  import opened Common
  import opened Paths
  import opened Host
  import opened Web
  import opened Runtime
  import ServeFile
  import Authorize
  import CatchFile
  import Video
  import Sleep

  /** The names the package exports, in its own order. */
  const Registered: seq<string> := ["authorize", "catchfile", "servefile", "sleep", "video"]

  /** `is_action_present`. */
  function IsActionPresent(action: string): (r: bool)
    ensures r <==> action == "authorize" || action == "catchfile" || action == "servefile"
                   || action == "sleep" || action == "video"
  {
    action in Registered
  }

  /** The state an action may change: the files, the running processes and the journal. */
  datatype State = State(files: map<string, FileEntry>, running: set<nat>, journal: seq<LogCall>)

  /** What running `action` does. It runs only when it is registered and its module is loaded
      (`loaded` holds the loaded module names); otherwise the result is `None` and nothing
      changes. Each action gets the path, route and request unchanged. `pick` is the random
      choice of servefile and `pid` the process id a launched ffmpeg gets. */
  predicate Ran(action: string, loaded: set<string>, dirs: set<string>, root: string, now: int, site: Site,
                path: string, route: Route, request: Request, pick: nat, pid: nat,
                before: State, after: State, o: Outcome)
  {
    if !IsActionPresent(action) || action !in loaded then o == Continue && after == before
    else if action == "authorize" then
      after.running == before.running
      && Authorize.Handled(before.files, after.files, before.journal, after.journal, dirs, root, now, site, route, request, o)
    else if action == "catchfile" then
      var (outcome, files, calls) := CatchFile.Catch(before.files, dirs, root, site.cfg, request, now);
      o == outcome && after == State(files, before.running, before.journal + calls)
    else if action == "servefile" then
      after.running == before.running && after.journal == before.journal
      && ServeFile.Served(before.files, after.files, dirs, root, now, site, path, route, request, pick, o)
    else if action == "sleep" then
      o == Sleep.Run(route) && after == before
    else
      Video.Handled(before.files, after.files, before.running, after.running, before.journal, after.journal,
                    dirs, root, now, route, pid, o)
  }

  /** `run`: the dispatch. */
  method Run(action: string, loaded: set<string>, host: Host, site: Site, path: string, route: Route,
             request: Request, pick: nat, pid: nat) returns (o: Outcome)
    modifies host`files, host`running, host`journal
    ensures Ran(action, loaded, host.dirs, host.root, host.now, site, path, route, request, pick, pid,
                State(old(host.files), old(host.running), old(host.journal)),
                State(host.files, host.running, host.journal), o)
  {
    if !IsActionPresent(action) || action !in loaded {
      return Continue;
    }
    if action == "authorize" {
      o := Authorize.Run(host, site, route, request);
    } else if action == "catchfile" {
      o := CatchFile.Run(host, site.cfg, request);
    } else if action == "servefile" {
      o := ServeFile.Run(host, site, path, route, request, pick);
    } else if action == "sleep" {
      o := Sleep.Run(route);
    } else {
      o := Video.Run(host, site, route, request, pid);
    }
  }

  /** An unknown name never produces a result, whatever the route. */
  lemma UnknownActionContinues(action: string, loaded: set<string>, dirs: set<string>, root: string, now: int,
                               site: Site, path: string, route: Route, request: Request, pick: nat, pid: nat,
                               before: State, after: State, o: Outcome)
    requires !IsActionPresent(action)
    requires Ran(action, loaded, dirs, root, now, site, path, route, request, pick, pid, before, after, o)
    ensures o == Continue && after == before
  {
  }

  /** No action answers with a bare boolean, so the pipeline never has one to skip. */
  lemma {:induction false} NoBooleanResults(action: string, loaded: set<string>, dirs: set<string>, root: string,
                                            now: int, site: Site, path: string, route: Route, request: Request,
                                            pick: nat, pid: nat, before: State, after: State, o: Outcome)
    requires Ran(action, loaded, dirs, root, now, site, path, route, request, pick, pid, before, after, o)
    ensures !o.Boolean?
  {
    if IsActionPresent(action) && action in loaded {
      if action == "authorize" {
        AuthorizeNeverBoolean(before, after, dirs, root, now, site, route, request, o);
      } else if action == "catchfile" {
        CatchFile.CatchShape(before.files, dirs, root, site.cfg, request, now);
      } else if action == "servefile" {
        ServeFileNeverBoolean(before.files, after.files, dirs, root, now, site, path, route, request, pick, o);
      } else if action == "video" {
        match Video.Validate(route)
        case Err(_) =>
        case Ok(video) =>
      }
    }
  }

  lemma ServeFileNeverBoolean(before: map<string, FileEntry>, after: map<string, FileEntry>, dirs: set<string>,
                              root: string, now: int, site: Site, path: string, route: Route, request: Request,
                              pick: nat, o: Outcome)
    requires ServeFile.Served(before, after, dirs, root, now, site, path, route, request, pick, o)
    ensures !o.Boolean?
  {
  }

  lemma AuthorizeNeverBoolean(before: State, after: State, dirs: set<string>, root: string, now: int, site: Site,
                              route: Route, request: Request, o: Outcome)
    requires Authorize.Handled(before.files, after.files, before.journal, after.journal, dirs, root, now, site,
                               route, request, o)
    ensures !o.Boolean?
  {
    match Authorize.Assess(site, route, request)
    case Login(user, password, database) =>
      LoginNeverBoolean(before, after, dirs, root, now, site, route, request, user, password, database, o);
    case _ =>
  }

  lemma LoginNeverBoolean(before: State, after: State, dirs: set<string>, root: string, now: int, site: Site,
                          route: Route, request: Request, user: string, password: string, database: Value,
                          o: Outcome)
    requires "authorize" in route.blocks && route.blocks["authorize"].VMap?
    requires Authorize.LoginHandled(before.files, after.files, before.journal, after.journal, dirs, root, now, site,
                                    route, request, user, password, database, o)
    ensures !o.Boolean?
  {
    var block := route.blocks["authorize"].fields;
    if database.VStr? && Join(root, database.s) in before.files {
      var verdict := Authorize.Authorized(Authorize.Lines(before.files[Join(root, database.s)].content), user, password);
      if verdict.Ok? && !verdict.value {
        match Authorize.OnErrorAction(block, before.files, dirs, root)
        case ServeErrorPage(p) =>
          ServeFileNeverBoolean(before.files, after.files, dirs, root, now, site, "",
                                Authorize.ErrorRoute(block, p), request, 0, o);
        case _ =>
      }
    }
  }
}
