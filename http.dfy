/** The request handler: picks the route for a path from the ordered route table, logs the
    request, runs the route's actions in order until one answers, and copies the last route's
    headers onto every response. */
module Http {
  import opened Common
  import opened Host
  import opened Web
  import opened Runtime
  import Logging
  import Actions

  /** The route table in the order of the routes file: pattern key and route. */
  type Routes = seq<(string, Route)>

  /** Whether the scan of `_get_route` picks `key`: only for a non-empty path that does not
      start with a dot, only for a non-empty key, and only when the key, as a regular
      expression, matches the path followed by the query string. */
  predicate Picks(key: string, path: string, needle: string, matches: (string, string) -> bool)
  {
    path != "" && path[0] != '.' && key != "" && matches(key, needle)
  }

  /** The index of the first route the scan picks. */
  function FirstPick(routes: Routes, path: string, needle: string, matches: (string, string) -> bool): (r: Option<nat>)
    ensures r.Some? ==> r.value < |routes| && Picks(routes[r.value].0, path, needle, matches)
                        && forall j :: 0 <= j < r.value ==> !Picks(routes[j].0, path, needle, matches)
    ensures r.None? ==> forall j :: 0 <= j < |routes| ==> !Picks(routes[j].0, path, needle, matches)
    decreases |routes|
  {
    if routes == [] then None
    else if Picks(routes[0].0, path, needle, matches) then Some(0)
    else
      match FirstPick(routes[1..], path, needle, matches)
      case None => None
      case Some(k) => Some(k + 1)
  }

  /** `routes[key]`. */
  function Lookup(routes: Routes, key: string): (r: Option<Route>)
    ensures r.Some? <==> exists j :: 0 <= j < |routes| && routes[j].0 == key
    ensures r.Some? ==> exists j :: 0 <= j < |routes| && routes[j] == (key, r.value)
    decreases |routes|
  {
    if routes == [] then None
    else if routes[0].0 == key then Some(routes[0].1)
    else
      var r := Lookup(routes[1..], key);
      if r.Some? then
        var j :| 0 <= j < |routes[1..]| && routes[1..][j] == (key, r.value);
        assert routes[j + 1] == (key, r.value);
        r
      else r
  }

  /** `_get_route`: the first picked route with its key; failing that, the `""` route for the
      empty path (raising when there is none); otherwise no route. */
  function SelectRoute(routes: Routes, path: string, query: string, matches: (string, string) -> bool)
    : Result<Option<(string, Route)>>
  {
    match FirstPick(routes, path, path + GetString(query), matches)
    case Some(k) => Ok(Some(routes[k]))
    case None =>
      if path != "" then Ok(None)
      else
        match Lookup(routes, "")
        case None => Err("KeyError")
        case Some(route) => Ok(Some(("", route)))
  }

  /** The empty path never reaches the scan's patterns: it gets the `""` route or raises. */
  lemma EmptyPathGetsRootRoute(routes: Routes, query: string, matches: (string, string) -> bool)
    ensures var r := SelectRoute(routes, "", query, matches);
            (r.Ok? && r.value.Some? && r.value.value.0 == "" && Lookup(routes, "") == Some(r.value.value.1))
            || (r == Err("KeyError") && Lookup(routes, "").None?)
  {
  }

  /** A path starting with a dot selects no route at all. */
  lemma DotPathSelectsNothing(routes: Routes, path: string, query: string, matches: (string, string) -> bool)
    requires path != "" && path[0] == '.'
    ensures SelectRoute(routes, path, query, matches) == Ok(None)
  {
  }

  /** A route found by the scan is the first in table order whose key matches, never the `""`
      route; every earlier key fails to match. */
  lemma {:induction false} ScanPicksFirstMatch(routes: Routes, path: string, query: string, matches: (string, string) -> bool)
    requires path != ""
    requires SelectRoute(routes, path, query, matches).Ok? && SelectRoute(routes, path, query, matches).value.Some?
    ensures var (key, route) := SelectRoute(routes, path, query, matches).value.value;
            exists k :: 0 <= k < |routes| && routes[k] == (key, route) && key != ""
                        && path[0] != '.' && matches(key, path + GetString(query))
                        && forall j :: 0 <= j < k ==> !Picks(routes[j].0, path, path + GetString(query), matches)
  {
    var k := FirstPick(routes, path, path + GetString(query), matches).value;
    assert routes[k] == SelectRoute(routes, path, query, matches).value.value;
  }

  /** The `http.request` entry made for every request that gets past route selection; its error
      flag says whether no route was found. */
  function RequestCall(request: Request, missing: bool): LogCall
  {
    Logging.WrapperCall(Logging.EventHttpRequest, request.verb + " " + request.url, Some(request), missing)
  }

  /** The result of the action pipeline: the first result that is a response or an exception,
      or `None` when every action gave `None` (or a boolean). */
  function FirstAnswer(results: seq<Outcome>): (o: Outcome)
    ensures o == Continue || Terminal(o)
    ensures Terminal(o) ==> o in results
    decreases |results|
  {
    if results == [] then Continue
    else if Terminal(results[0]) then results[0]
    else FirstAnswer(results[1..])
  }

  /** Results after the first answer are never looked at. */
  lemma {:induction false} LaterResultsIgnored(results: seq<Outcome>, k: nat, rest: seq<Outcome>)
    requires k < |results| && Terminal(results[k])
    requires forall j :: 0 <= j < k ==> !Terminal(results[j])
    ensures FirstAnswer(results) == results[k]
    ensures FirstAnswer(results[..k + 1] + rest) == results[k]
    decreases k
  {
    if k > 0 {
      LaterResultsIgnored(results[1..], k - 1, rest);
      assert (results[..k + 1] + rest)[1..] == results[1..][..k] + rest;
    } else {
      assert (results[..1] + rest)[0] == results[0];
    }
  }

  /** A pipeline of results none of which answers gives `None`. */
  lemma {:induction false} NoAnswerContinues(results: seq<Outcome>)
    requires forall j :: 0 <= j < |results| ==> !Terminal(results[j])
    ensures FirstAnswer(results) == Continue
    decreases |results|
  {
    if results != [] {
      NoAnswerContinues(results[1..]);
    }
  }

  /** Appending a result to a pipeline without an answer yet gives that result if it answers. */
  lemma {:induction false} AnswerAppended(results: seq<Outcome>, r: Outcome)
    requires FirstAnswer(results) == Continue
    ensures FirstAnswer(results + [r]) == if Terminal(r) then r else Continue
    decreases |results|
  {
    if results == [] {
      assert results + [r] == [r];
    } else {
      assert (results + [r])[1..] == results[1..] + [r];
      AnswerAppended(results[1..], r);
    }
  }

  /** The first `|results|` actions of `route` ran in turn, each from the state the one before
      it left. */
  ghost predicate RanInTurn(loaded: set<string>, dirs: set<string>, root: string, now: int, site: Site, key: string,
                            route: Route, request: Request, pick: nat -> nat, pid: nat -> nat,
                            results: seq<Outcome>, states: seq<Actions.State>)
    decreases |results|
  {
    |states| == |results| + 1 && |results| <= |route.actions|
    && (results != [] ==>
          var n := |results| - 1;
          RanInTurn(loaded, dirs, root, now, site, key, route, request, pick, pid, results[..n], states[..n + 1])
          && Actions.Ran(route.actions[n], loaded, dirs, root, now, site, key, route, request, pick(n), pid(n),
                         states[n], states[n + 1], results[n]))
  }

  /** Each action of the run went from the state at its index to the next one. */
  lemma {:induction false} RanInTurnMeans(loaded: set<string>, dirs: set<string>, root: string, now: int, site: Site,
                                          key: string, route: Route, request: Request, pick: nat -> nat,
                                          pid: nat -> nat, results: seq<Outcome>, states: seq<Actions.State>, j: nat)
    requires RanInTurn(loaded, dirs, root, now, site, key, route, request, pick, pid, results, states)
    requires j < |results|
    ensures Actions.Ran(route.actions[j], loaded, dirs, root, now, site, key, route, request, pick(j), pid(j),
                        states[j], states[j + 1], results[j])
    decreases |results|
  {
    var n := |results| - 1;
    if j < n {
      RanInTurnMeans(loaded, dirs, root, now, site, key, route, request, pick, pid, results[..n], states[..n + 1], j);
      assert results[..n][j] == results[j] && states[..n + 1][j] == states[j] && states[..n + 1][j + 1] == states[j + 1];
    }
  }

  /** One more action run from the state the last one left extends the run. */
  lemma {:induction false} RanInTurnStep(loaded: set<string>, dirs: set<string>, root: string, now: int, site: Site,
                                         key: string, route: Route, request: Request, pick: nat -> nat,
                                         pid: nat -> nat, results: seq<Outcome>, states: seq<Actions.State>,
                                         r: Outcome, after: Actions.State)
    requires RanInTurn(loaded, dirs, root, now, site, key, route, request, pick, pid, results, states)
    requires |results| < |route.actions|
    requires Actions.Ran(route.actions[|results|], loaded, dirs, root, now, site, key, route, request,
                         pick(|results|), pid(|results|), states[|results|], after, r)
    ensures RanInTurn(loaded, dirs, root, now, site, key, route, request, pick, pid, results + [r], states + [after])
  {
    var results', states' := results + [r], states + [after];
    assert results'[..|results|] == results && states'[..|results| + 1] == states;
  }

  /** How the actions of `route` ran, one after another: `states[j]` is what action `j` found
      and `states[j + 1]` what it left, `results[j]` what it gave back. Every action but the
      last one run gave no answer, and the run stopped early only at an answer. */
  ghost predicate Pipeline(loaded: set<string>, dirs: set<string>, root: string, now: int, site: Site, key: string,
                           route: Route, request: Request, pick: nat -> nat, pid: nat -> nat,
                           results: seq<Outcome>, states: seq<Actions.State>)
  {
    RanInTurn(loaded, dirs, root, now, site, key, route, request, pick, pid, results, states)
    && (forall j :: 0 <= j < |results| - 1 ==> !Terminal(results[j]))
    && (|results| < |route.actions| ==> results != [] && Terminal(results[|results| - 1]))
  }

  /** The Flask application: its route table and the last route selected (shared by all
      requests). */
  class App {
    var routes: Routes
    var lastRoute: Option<Route>

    constructor (routes: Routes)
      ensures this.routes == routes && lastRoute == None
    {
      this.routes := routes;
      lastRoute := None;
    }

    /** `_get_route`: the scan with its early exit, then the fallback. */
    method GetRoute(path: string, query: string, matches: (string, string) -> bool)
      returns (r: Result<Option<(string, Route)>>)
      ensures r == SelectRoute(routes, path, query, matches)
    {
      var selected: Option<nat> := None;
      var i := 0;
      while i < |routes|
        invariant 0 <= i <= |routes|
        invariant selected.None? ==> forall j :: 0 <= j < i ==> !Picks(routes[j].0, path, path + GetString(query), matches)
        invariant selected.Some? ==> selected == FirstPick(routes, path, path + GetString(query), matches)
        decreases |routes| - i, if selected.None? then 1 else 0
      {
        var needle := path + GetString(query);
        if path != "" && path[0] != '.' && routes[i].0 != "" && matches(routes[i].0, needle) {
          selected := Some(i);
          break;
        }
        i := i + 1;
      }
      if selected.Some? {
        return Ok(Some(routes[selected.value]));
      }
      if path == "" {
        var root := Lookup(routes, "");
        if root.None? {
          return Err("KeyError");
        }
        return Ok(Some(("", root.value)));
      }
      r := Ok(None);
    }

    /** `handle_route`: select the route, log the request (flagged as an error when no route
        was found), answer 404 without a route, otherwise remember the route for `add_header`
        and run its actions. A failed lookup of the `""` route raises before anything is logged.
        `pick(j)` and `pid(j)` are the random choice and the process id action `j` gets. */
    method HandleRoute(host: Host, site: Site, loaded: set<string>, path: string, request: Request,
                       pick: nat -> nat, pid: nat -> nat)
      returns (o: Outcome, ghost results: seq<Outcome>, ghost states: seq<Actions.State>)
      modifies this`lastRoute, host`files, host`running, host`journal
      ensures var sel := SelectRoute(routes, path, request.queryString, site.matches);
              (sel.Err? ==> o == Raise(sel.error) && lastRoute == old(lastRoute)
                            && host.files == old(host.files) && host.running == old(host.running)
                            && host.journal == old(host.journal))
              && (sel == Ok(None) ==> o == Respond(Abort(404)) && lastRoute == old(lastRoute)
                                      && host.files == old(host.files) && host.running == old(host.running)
                                      && host.journal == old(host.journal) + [RequestCall(request, true)])
              && (sel.Ok? && sel.value.Some? ==>
                    var (key, route) := sel.value.value;
                    lastRoute == Some(route)
                    && Pipeline(loaded, host.dirs, host.root, host.now, site, key, route, request, pick, pid, results, states)
                    && states[0] == Actions.State(old(host.files), old(host.running), old(host.journal) + [RequestCall(request, false)])
                    && states[|results|] == Actions.State(host.files, host.running, host.journal)
                    && o == FirstAnswer(results))
    {
      results, states := [], [];
      var selected := GetRoute(path, request.queryString, site.matches);
      if selected.Err? {
        return Raise(selected.error), results, states;
      }
      host.journal := host.journal + [RequestCall(request, selected.value.None?)];
      if selected.value.None? {
        return Respond(Abort(404)), results, states;
      }
      var (key, route) := selected.value.value;
      lastRoute := Some(route);
      o, results, states := RunActions(host, site, loaded, key, route, request, pick, pid);
    }

    /** `add_header`: the last selected route's headers are set on the response, replacing
        headers of the same name; every other header stays as it is. */
    method AddHeader(headers: map<string, string>) returns (r: map<string, string>)
      ensures lastRoute.None? || lastRoute.value.headers.None? ==> r == headers
      ensures lastRoute.Some? && lastRoute.value.headers.Some? ==>
                var extra := lastRoute.value.headers.value;
                r.Keys == headers.Keys + extra.Keys
                && (forall k :: k in extra ==> r[k] == extra[k])
                && (forall k :: k in headers && k !in extra ==> r[k] == headers[k])
    {
      r := headers;
      if lastRoute.None? || lastRoute.value.headers.None? {
        return;
      }
      var extra := lastRoute.value.headers.value;
      var todo := extra.Keys;
      while todo != {}
        invariant todo <= extra.Keys
        invariant r.Keys == headers.Keys + (extra.Keys - todo)
        invariant forall k :: k in r ==> r[k] == if k in extra && k !in todo then extra[k] else headers[k]
        decreases todo
      {
        var k :| k in todo;
        r := r[k := extra[k]];
        todo := todo - {k};
      }
    }
  }

  /** The action loop of `handle_route`: every action in order until one answers. */
  method RunActions(host: Host, site: Site, loaded: set<string>, key: string, route: Route, request: Request,
                    pick: nat -> nat, pid: nat -> nat)
    returns (o: Outcome, ghost results: seq<Outcome>, ghost states: seq<Actions.State>)
    modifies host`files, host`running, host`journal
    ensures Pipeline(loaded, host.dirs, host.root, host.now, site, key, route, request, pick, pid, results, states)
    ensures states[0] == Actions.State(old(host.files), old(host.running), old(host.journal))
    ensures states[|results|] == Actions.State(host.files, host.running, host.journal)
    ensures o == FirstAnswer(results)
  {
    results, states := [], [Actions.State(host.files, host.running, host.journal)];
    var j := 0;
    while j < |route.actions|
      invariant 0 <= j <= |route.actions| && |results| == j
      invariant RanInTurn(loaded, host.dirs, host.root, host.now, site, key, route, request, pick, pid, results, states)
      invariant states[0] == Actions.State(old(host.files), old(host.running), old(host.journal))
      invariant states[j] == Actions.State(host.files, host.running, host.journal)
      invariant forall i :: 0 <= i < j ==> !Terminal(results[i])
      invariant FirstAnswer(results) == Continue
    {
      var r;
      r, states := Step(host, site, loaded, key, route, request, pick, pid, j, results, states);
      AnswerAppended(results, r);
      results := results + [r];
      if Terminal(r) {
        return r, results, states;
      }
      j := j + 1;
    }
    o := Continue;
  }

  /** Runs the next action of the pipeline and records what it gave and left. */
  method Step(host: Host, site: Site, loaded: set<string>, key: string, route: Route, request: Request,
              pick: nat -> nat, pid: nat -> nat, j: nat, ghost results: seq<Outcome>, ghost states: seq<Actions.State>)
    returns (r: Outcome, ghost states': seq<Actions.State>)
    requires j == |results|
    requires RanInTurn(loaded, host.dirs, host.root, host.now, site, key, route, request, pick, pid, results, states)
    requires |results| < |route.actions|
    requires states[|results|] == Actions.State(host.files, host.running, host.journal)
    modifies host`files, host`running, host`journal
    ensures states' == states + [Actions.State(host.files, host.running, host.journal)]
    ensures RanInTurn(loaded, host.dirs, host.root, host.now, site, key, route, request, pick, pid, results + [r], states')
  {
    r := Actions.Run(route.actions[j], loaded, host, site, key, route, request, pick(j), pid(j));
    states' := states + [Actions.State(host.files, host.running, host.journal)];
    RanInTurnStep(loaded, host.dirs, host.root, host.now, site, key, route, request, pick, pid, results, states,
                  r, Actions.State(host.files, host.running, host.journal));
  }
}
