/** The `authorize` action: reads a username and a password from the request, checks them
    against a `username;password` user database, logs the attempt, and on failure answers as the
    route's `on_error` entry says. */
module Authorize {
  import opened Common
  import opened Paths
  import opened Config
  import opened Host
  import opened Web
  import opened Runtime
  import Logging
  import Util
  import ServeFile

  // ----- The user database -----

  /** `file.readlines()`: the text cut after every newline, each line keeping its newline (the
      last line has none when the text does not end with one). */
  function Lines(s: string): seq<string>
    decreases |s|
  {
    if s == [] then [] else [s[..LineLength(s)]] + Lines(s[LineLength(s)..])
  }

  /** The length of the first line of `s`, its newline included. */
  function LineLength(s: string): (n: nat)
    requires s != []
    ensures 0 < n <= |s|
    ensures '\n' !in s[..n - 1]
    ensures n == |s| || s[n - 1] == '\n'
  {
    var k := |Util.Before(s, '\n')|;
    assert s[..k] == Util.Before(s, '\n');
    if k < |s| then k + 1 else |s|
  }

  /** Every line is non-empty, every line but the last ends with its newline, and no line holds
      a newline anywhere else. */
  lemma {:induction false} LinesShape(s: string)
    ensures forall i :: 0 <= i < |Lines(s)| ==> Lines(s)[i] != []
    ensures forall i :: 0 <= i < |Lines(s)| - 1 ==> Lines(s)[i][|Lines(s)[i]| - 1] == '\n'
    ensures forall i :: 0 <= i < |Lines(s)| ==> '\n' !in Lines(s)[i][..|Lines(s)[i]| - 1]
    decreases |s|
  {
    if s != [] {
      var n := LineLength(s);
      var ls, rest := Lines(s), Lines(s[n..]);
      LinesShape(s[n..]);
      assert ls[0] == s[..n] && ls[0][..n - 1] == s[..n - 1];
      assert rest != [] ==> s[n..] != [];
      forall i | 1 <= i < |ls|
        ensures ls[i] == rest[i - 1]
      {
      }
    }
  }

  function Concat(ls: seq<string>): string
  {
    if ls == [] then "" else ls[0] + Concat(ls[1..])
  }

  lemma ConcatCons(head: string, rest: seq<string>)
    ensures Concat([head] + rest) == head + Concat(rest)
  {
    assert ([head] + rest)[1..] == rest;
  }

  /** The lines put back together give the text that was read. */
  lemma {:induction false} LinesConcat(s: string)
    ensures Concat(Lines(s)) == s
    decreases |s|
  {
    if s != [] {
      var n := LineLength(s);
      var head, tail := s[..n], s[n..];
      calc {
        Concat(Lines(s));
        Concat([head] + Lines(tail));
        { ConcatCons(head, Lines(tail)); }
        head + Concat(Lines(tail));
        { LinesConcat(tail); }
        head + tail;
        s;
      }
    }
  }

  /** A line without a trailing newline, as written when the database was created. */
  function Chomp(line: string): (r: string)
    ensures r + (if r == line then "" else "\n") == line
  {
    if line != [] && line[|line| - 1] == '\n' then line[..|line| - 1] else line
  }

  /** `line.split(";", 1)` followed by the comparison, exactly as the line comes from
      `readlines`: the password part still carries the line's newline. */
  predicate LineMatches(line: string, username: string, password: string)
    requires ';' in line
  {
    Util.Before(line, ';') == username && Util.After(line, ';') == password
  }

  /** The comparison the user database calls for: the line's newline removed from the password
      part. The action does not use it. */
  predicate LineMatchesIntended(line: string, username: string, password: string)
    requires ';' in line
  {
    Util.Before(line, ';') == username && Chomp(Util.After(line, ';')) == password
  }

  lemma StoredLineSplits(username: string, password: string, ending: string)
    requires ';' !in username
    ensures var line := username + ";" + password + ending;
            ';' in line && Util.Before(line, ';') == username && Util.After(line, ';') == password + ending
  {
    var line := username + ";" + password + ending;
    assert line == username + [';'] + (password + ending);
    Util.BeforeJoined(username, ';', password + ending);
  }

  /** As written, a newline-terminated line never admits its own password (unless the password
      itself ends in a newline): `admin;admin` followed by a newline rejects `admin`/`admin`. */
  lemma AsWrittenRejectsStoredLine(username: string, password: string)
    requires ';' !in username
    requires password == [] || password[|password| - 1] != '\n'
    ensures var line := username + ";" + password + "\n";
            ';' in line && !LineMatches(line, username, password)
  {
    StoredLineSplits(username, password, "\n");
    assert (password + "\n")[|password|] == '\n';
  }

  /** With the newline removed, the line stored for a user admits exactly that user's password. */
  lemma StoredLineAccepted(username: string, password: string, other: string)
    requires ';' !in username
    ensures var line := username + ";" + password + "\n";
            ';' in line && LineMatchesIntended(line, username, password)
            && (LineMatchesIntended(line, username, other) ==> other == password)
  {
    StoredLineSplits(username, password, "\n");
    assert Chomp(password + "\n") == password;
  }

  /** The verdict of the scan of `_is_authorized` over the lines, comparing as written: the first
      matching line grants access; a line without `;` met before any match raises. */
  function Authorized(lines: seq<string>, username: string, password: string): Result<bool>
    decreases |lines|
  {
    if lines == [] then Ok(false)
    else if ';' !in lines[0] then Err("IndexError")
    else if LineMatches(lines[0], username, password) then Ok(true)
    else Authorized(lines[1..], username, password)
  }

  /** A line that can be split and matches the credentials. */
  predicate Grants(line: string, username: string, password: string)
  {
    ';' in line && LineMatches(line, username, password)
  }

  /** As written, a database holding just the line stored for a user refuses that user's own
      login. */
  lemma StoredLoginRefused(username: string, password: string)
    requires ';' !in username && '\n' !in username && '\n' !in password
    ensures Authorized(Lines(username + ";" + password + "\n"), username, password) == Ok(false)
  {
    var line := username + ";" + password + "\n";
    var n := LineLength(line);
    assert line[..|line| - 1] == username + ";" + password;
    assert n == |line|;
    assert line[..n] == line && line[n..] == [];
    assert Lines(line) == [line];
    AsWrittenRejectsStoredLine(username, password);
    assert [line][1..] == [];
  }

  /** Access is granted exactly when some line matches and every line before it can be split. */
  lemma AuthorizedGrants(lines: seq<string>, username: string, password: string)
    ensures Authorized(lines, username, password) == Ok(true) <==>
              exists i :: 0 <= i < |lines| && Grants(lines[i], username, password)
                          && forall j :: 0 <= j < i ==> ';' in lines[j]
  {
    if Authorized(lines, username, password) == Ok(true) {
      var i := GrantingLine(lines, username, password);
    } else if exists i :: 0 <= i < |lines| && Grants(lines[i], username, password)
                          && forall j :: 0 <= j < i ==> ';' in lines[j] {
      var i :| 0 <= i < |lines| && Grants(lines[i], username, password)
               && forall j :: 0 <= j < i ==> ';' in lines[j];
      GrantingLineGrants(lines, username, password, i);
    }
  }

  /** A grant comes from a matching line with only splittable lines before it. */
  lemma {:induction false} GrantingLine(lines: seq<string>, username: string, password: string) returns (i: nat)
    requires Authorized(lines, username, password) == Ok(true)
    ensures i < |lines| && Grants(lines[i], username, password)
    ensures forall j :: 0 <= j < i ==> ';' in lines[j]
    decreases |lines|
  {
    if Grants(lines[0], username, password) {
      return 0;
    }
    var k := GrantingLine(lines[1..], username, password);
    i := k + 1;
    forall j | 0 <= j < i
      ensures ';' in lines[j]
    {
      if j > 0 {
        assert lines[j] == lines[1..][j - 1];
      }
    }
  }

  /** A matching line with only splittable lines before it grants access. */
  lemma {:induction false} GrantingLineGrants(lines: seq<string>, username: string, password: string, i: nat)
    requires i < |lines| && Grants(lines[i], username, password)
    requires forall j :: 0 <= j < i ==> ';' in lines[j]
    ensures Authorized(lines, username, password) == Ok(true)
    decreases i
  {
    if i > 0 && !Grants(lines[0], username, password) {
      assert ';' in lines[0];
      var rest := lines[1..];
      forall j | 0 <= j < i - 1
        ensures ';' in rest[j]
      {
        assert rest[j] == lines[j + 1];
      }
      GrantingLineGrants(rest, username, password, i - 1);
    }
  }

  /** Access is refused exactly when every line can be split and none matches. */
  lemma {:induction false} AuthorizedRefuses(lines: seq<string>, username: string, password: string)
    ensures Authorized(lines, username, password) == Ok(false) <==>
              forall i :: 0 <= i < |lines| ==> ';' in lines[i] && !LineMatches(lines[i], username, password)
    decreases |lines|
  {
    if lines != [] {
      var rest := lines[1..];
      AuthorizedRefuses(rest, username, password);
      if forall i :: 0 <= i < |lines| ==> ';' in lines[i] && !LineMatches(lines[i], username, password) {
        assert forall i :: 0 <= i < |rest| ==> ';' in rest[i] && !LineMatches(rest[i], username, password) by {
          forall i | 0 <= i < |rest|
            ensures ';' in rest[i] && !LineMatches(rest[i], username, password)
          {
            assert rest[i] == lines[i + 1];
          }
        }
      }
      if Authorized(lines, username, password) == Ok(false) {
        forall i | 0 <= i < |lines|
          ensures ';' in lines[i] && !LineMatches(lines[i], username, password)
        {
          if i > 0 {
            assert lines[i] == rest[i - 1];
          }
        }
      }
    }
  }

  /** `_is_authorized`: reads the lines of the database text and stops at the first match. */
  method IsAuthorized(username: string, password: string, database: string) returns (r: Result<bool>)
    ensures r == Authorized(Lines(database), username, password)
  {
    var lines := Lines(database);
    var success := false;
    var i := 0;
    while i < |lines|
      invariant 0 <= i <= |lines|
      invariant Authorized(lines, username, password) == Authorized(lines[i..], username, password)
    {
      var line := lines[i];
      assert lines[i..][0] == line && lines[i..][1..] == lines[i + 1..];
      if ';' !in line {
        return Err("IndexError");
      }
      if LineMatches(line, username, password) {
        success := true;
        break;
      }
      i := i + 1;
    }
    r := Ok(success);
  }

  // ----- Where the credentials come from -----

  /** A request field: one value, or all values of a re-parsed query string. */
  datatype Param = Single(s: string) | Multi(items: seq<string>)

  /** `haystack.get(key)`; a key that is not a string is never found. */
  function Lookup(haystack: map<string, Param>, key: Option<string>): Option<Param>
  {
    if key.Some? && key.value in haystack then Some(haystack[key.value]) else None
  }

  /** The credentials the loop over the haystacks leaves behind: those of the first haystack
      holding both keys, otherwise those of the last haystack. */
  function Credentials(haystacks: seq<map<string, Param>>, userKey: Option<string>, passwordKey: Option<string>)
    : (r: (Option<Param>, Option<Param>))
    ensures haystacks == [] ==> r == (None, None)
    ensures haystacks != [] ==>
              exists i :: 0 <= i < |haystacks| && r == (Lookup(haystacks[i], userKey), Lookup(haystacks[i], passwordKey))
    decreases |haystacks|
  {
    if haystacks == [] then (None, None)
    else
      var user := Lookup(haystacks[0], userKey);
      var password := Lookup(haystacks[0], passwordKey);
      if (user.Some? && password.Some?) || |haystacks| == 1 then (user, password)
      else
        var r := Credentials(haystacks[1..], userKey, passwordKey);
        ghost var i :| 0 <= i < |haystacks| - 1 && r == (Lookup(haystacks[1..][i], userKey), Lookup(haystacks[1..][i], passwordKey));
        assert haystacks[1..][i] == haystacks[i + 1];
        r
  }

  /** GET first, then POST: both credentials come from GET when GET holds both keys, and
      otherwise both come from POST; they are never taken from different sources. */
  lemma GetThenPost(get: map<string, Param>, post: map<string, Param>, userKey: Option<string>, passwordKey: Option<string>)
    ensures var r := Credentials([get, post], userKey, passwordKey);
            if Lookup(get, userKey).Some? && Lookup(get, passwordKey).Some?
            then r == (Lookup(get, userKey), Lookup(get, passwordKey))
            else r == (Lookup(post, userKey), Lookup(post, passwordKey))
  {
    assert [get, post][1..] == [post];
  }

  /** The loop of `run` over the haystacks, stopping at the first that holds both keys. */
  method SelectCredentials(haystacks: seq<map<string, Param>>, userKey: Option<string>, passwordKey: Option<string>)
    returns (user: Option<Param>, password: Option<Param>)
    ensures (user, password) == Credentials(haystacks, userKey, passwordKey)
  {
    user, password := None, None;
    var i := 0;
    while i < |haystacks|
      invariant 0 <= i <= |haystacks|
      invariant i < |haystacks| ==> Credentials(haystacks, userKey, passwordKey) == Credentials(haystacks[i..], userKey, passwordKey)
      invariant i == |haystacks| ==> (user, password) == Credentials(haystacks, userKey, passwordKey)
    {
      assert haystacks[i..][0] == haystacks[i];
      user := Lookup(haystacks[i], userKey);
      password := Lookup(haystacks[i], passwordKey);
      if user.Some? && password.Some? {
        break;
      }
      assert i + 1 < |haystacks| ==> haystacks[i..][1..] == haystacks[i + 1..];
      i := i + 1;
    }
  }

  /** The list handling: a list value becomes its first element (an empty one raises). */
  function Collapse(p: Option<Param>): (r: Result<Option<string>>)
    ensures p.None? ==> r == Ok(None)
    ensures p.Some? && p.value.Single? ==> r == Ok(Some(p.value.s))
    ensures r.Ok? && r.value.Some? && p.value.Multi? ==> p.value.items != [] && r.value.value == p.value.items[0]
  {
    match p
    case None => Ok(None)
    case Some(Single(s)) => Ok(Some(s))
    case Some(Multi(items)) => if items == [] then Err("IndexError") else Ok(Some(items[0]))
  }

  /** The key names of the block as `dict.get` uses them: a string is looked up, any other
      hashable value finds nothing, a list or an object raises. */
  function KeyName(v: Value): Result<Option<string>>
  {
    match v
    case VStr(s) => Ok(Some(s))
    case VList(_) => Err("TypeError")
    case VMap(_) => Err("TypeError")
    case _ => Ok(None)
  }

  /** The GET source: the request arguments, or the re-parsed query string when the raw query
      contains `%3`. */
  function GetSource(site: Site, request: Request): (get: map<string, Param>)
    ensures !Contains(request.queryString, "%3") ==>
              get.Keys == request.args.Keys && forall k :: k in get ==> get[k] == Single(request.args[k])
    ensures Contains(request.queryString, "%3") ==>
              var parsed := site.reparse(request.queryString);
              get.Keys == parsed.Keys && forall k :: k in get ==> get[k] == Multi(parsed[k])
  {
    if Contains(request.queryString, "%3") then
      var parsed := site.reparse(request.queryString);
      map k | k in parsed :: Multi(parsed[k])
    else map k | k in request.args :: Single(request.args[k])
  }

  function PostSource(request: Request): map<string, Param>
  {
    map k | k in request.form :: Single(request.form[k])
  }

  const CredentialKeys: seq<string> := ["key_username", "key_password"]

  /** The part of `run` before the database is read. */
  datatype Attempt =
    | Failed(error: string)
    | Denied
    | Anonymous
    | Login(user: string, password: string, database: Value)

  function CredentialsOf(site: Site, request: Request, userKey: Option<string>, passwordKey: Option<string>)
    : (Option<Param>, Option<Param>)
  {
    Credentials([GetSource(site, request), PostSource(request)], userKey, passwordKey)
  }

  /** The block names both keys, both names can be looked up, and neither credential is an
      empty list: the credentials are read without an exception. */
  predicate CredentialsRead(site: Site, route: Route, request: Request)
  {
    "authorize" in route.blocks && route.blocks["authorize"].VMap?
    && var block := route.blocks["authorize"].fields;
    "key_username" in block && "key_password" in block
    && KeyName(block["key_username"]).Ok? && KeyName(block["key_password"]).Ok?
    && var (u, p) := CredentialsOf(site, request, KeyName(block["key_username"]).value,
                                   KeyName(block["key_password"]).value);
    Collapse(u).Ok? && Collapse(p).Ok?
  }

  /** The user name and the password read from the request, each absent when its key is. */
  function ReadCredentials(site: Site, route: Route, request: Request): (Option<string>, Option<string>)
    requires CredentialsRead(site, route, request)
  {
    var block := route.blocks["authorize"].fields;
    var (u, p) := CredentialsOf(site, request, KeyName(block["key_username"]).value,
                                KeyName(block["key_password"]).value);
    (Collapse(u).value, Collapse(p).value)
  }

  /** Both credentials present and non-empty: Python's `username and password`. */
  predicate BothGiven(credentials: (Option<string>, Option<string>))
  {
    credentials.0.Some? && credentials.0.value != "" && credentials.1.Some? && credentials.1.value != ""
  }

  function Assess(site: Site, route: Route, request: Request): (a: Attempt)
    ensures "authorize" !in route.blocks ==> a.Failed?
    ensures a == Denied <==>
              "authorize" in route.blocks && !AreRouteConfigValuesExisting(AsObject(route.blocks["authorize"]), CredentialKeys)
    ensures a.Anonymous? <==> CredentialsRead(site, route, request) && !BothGiven(ReadCredentials(site, route, request))
    ensures a.Login? <==> CredentialsRead(site, route, request) && BothGiven(ReadCredentials(site, route, request))
                          && "user_db" in route.blocks["authorize"].fields
    ensures a.Login? ==> a.user != "" && a.password != ""
                         && ReadCredentials(site, route, request) == (Some(a.user), Some(a.password))
                         && a.database == route.blocks["authorize"].fields["user_db"]
  {
    if "authorize" !in route.blocks then Failed("Exception")
    else
      var block := AsObject(route.blocks["authorize"]);
      if !AreRouteConfigValuesExisting(block, CredentialKeys) then Denied
      else
        var fields := block.value;
        assert CredentialKeys[0] in fields && CredentialKeys[1] in fields;
        match (KeyName(fields["key_username"]), KeyName(fields["key_password"]))
        case (Err(e), _) => Failed(e)
        case (_, Err(e)) => Failed(e)
        case (Ok(userKey), Ok(passwordKey)) =>
          var (u, p) := CredentialsOf(site, request, userKey, passwordKey);
          match (Collapse(u), Collapse(p))
          case (Err(e), _) => Failed(e)
          case (_, Err(e)) => Failed(e)
          case (Ok(user), Ok(password)) =>
            if user.None? || user.value == "" || password.None? || password.value == "" then Anonymous
            else if "user_db" !in fields then Failed("Exception")
            else Login(user.value, password.value, fields["user_db"])
  }

  // ----- Failure handling -----

  /** What `on_error` asks for after a failed login. */
  datatype OnError = Forbidden | Status(code: int) | ServeErrorPage(path: string) | RedirectTo(location: string) | Invalid(error: string)

  /** The status codes `abort` has an exception for: those of werkzeug's `default_exceptions`.
      Any other integer makes `abort` raise `LookupError`. */
  const AbortCodes: set<int> :=
    {400, 401, 403, 404, 405, 406, 408, 409, 410, 411, 412, 413, 414, 415, 416, 417, 418, 421, 422,
     423, 424, 428, 429, 431, 451, 500, 501, 502, 503, 504, 505}

  /** The `on_error` chain: no entry gives 403; an integer (a boolean counts as one) is handed to
      `abort`, which knows only the codes in `AbortCodes`; a path that exists under the root is
      served; any other text is a redirect target; any other value cannot be joined to the root. */
  function OnErrorAction(block: map<string, Value>, files: map<string, FileEntry>, dirs: set<string>, root: string)
    : (a: OnError)
    ensures "on_error" !in block <==> a == Forbidden
    ensures a.Status? <==> "on_error" in block && block["on_error"].VInt? && block["on_error"].i in AbortCodes
    ensures a.Status? ==> a.code == block["on_error"].i && 400 <= a.code < 600
    ensures a == Invalid("LookupError") <==>
              "on_error" in block && (block["on_error"].VBool?
                                      || (block["on_error"].VInt? && block["on_error"].i !in AbortCodes))
    ensures a.ServeErrorPage? <==> "on_error" in block && block["on_error"].VStr?
                                   && (Join(root, block["on_error"].s) in files || Join(root, block["on_error"].s) in dirs)
    ensures a.ServeErrorPage? ==> a.path == Join(root, block["on_error"].s)
    ensures a.RedirectTo? <==> "on_error" in block && block["on_error"].VStr?
                               && !(Join(root, block["on_error"].s) in files || Join(root, block["on_error"].s) in dirs)
    ensures a.RedirectTo? ==> a.location == block["on_error"].s
    ensures a == Invalid("TypeError") <==>
              "on_error" in block && (block["on_error"].VNull? || block["on_error"].VList? || block["on_error"].VMap?)
  {
    if "on_error" !in block then Forbidden
    else
      match block["on_error"]
      case VInt(code) => if code in AbortCodes then Status(code) else Invalid("LookupError")
      case VBool(_) => Invalid("LookupError")
      case VStr(target) =>
        var path := Join(root, target);
        if path in files || path in dirs then ServeErrorPage(path) else RedirectTo(target)
      case _ => Invalid("TypeError")
  }

  /** `key in block and block[key]`: the value, or false when the key is absent. */
  function OptionValue(block: map<string, Value>, key: string): (v: Value)
    ensures Truthy(v) <==> key in block && Truthy(block[key])
  {
    if key in block then block[key] else VBool(false)
  }

  /** The `servefile` block built for the error page, as written: the placeholder option is
      stored under `process_placeholder`, a key the servefile action never reads. */
  function OnErrorBlock(block: map<string, Value>, path: string): map<string, Value>
  {
    map["process_placeholder" := OptionValue(block, "on_error_placeholder"),
        "process_template" := OptionValue(block, "on_error_process_template"),
        "file" := VStr(path)]
  }

  /** As written, `on_error_placeholder` has no effect: the error page is never served with
      placeholders replaced. */
  lemma AsWrittenIgnoresPlaceholderOption(block: map<string, Value>, path: string)
    ensures ServeFile.SelectMode(OnErrorBlock(block, path)) != ServeFile.Placeholders
  {
  }

  /** The block with the option stored under the key servefile reads. The action does not use
      it. */
  function OnErrorBlockIntended(block: map<string, Value>, path: string): map<string, Value>
  {
    map["process_placeholders" := OptionValue(block, "on_error_placeholder"),
        "process_template" := OptionValue(block, "on_error_process_template"),
        "file" := VStr(path)]
  }

  /** The error page is rendered as a template when `on_error_process_template` is set, filled
      with placeholders when only `on_error_placeholder` is, and sent as it is otherwise. */
  lemma ErrorPageModes(block: map<string, Value>, path: string)
    ensures var mode := ServeFile.SelectMode(OnErrorBlockIntended(block, path));
            (mode == ServeFile.Template <==> "on_error_process_template" in block && Truthy(block["on_error_process_template"]))
            && (mode == ServeFile.Placeholders <==>
                  !("on_error_process_template" in block && Truthy(block["on_error_process_template"]))
                  && "on_error_placeholder" in block && Truthy(block["on_error_placeholder"]))
            && mode != ServeFile.Watermark
  {
  }

  /** The route handed to servefile for the error page. */
  function ErrorRoute(block: map<string, Value>, path: string): Route
  {
    Route([], None, map["servefile" := VMap(OnErrorBlock(block, path))])
  }

  /** As written, the error page is sent as a template or as it is, never with its placeholders
      replaced, whatever `on_error_placeholder` says. */
  lemma ErrorPageNeverFilled(block: map<string, Value>, path: string, files: map<string, FileEntry>,
                             dirs: set<string>, root: string, site: Site, request: Request)
    ensures !ServeFile.Decide(files, dirs, root, site, "", ErrorRoute(block, path), request, 0).FillPlaceholders?
  {
    AsWrittenIgnoresPlaceholderOption(block, path);
  }

  function LoginMessage(user: string, password: string): string
  {
    "Login attempt \"" + user + "\":\"" + password + "\""
  }

  /** The journal entry of a checked login attempt. */
  function LoginCall(user: string, password: string, request: Request, success: bool): (c: LogCall)
    ensures c.eventId == (if success then Logging.EventLoginSuccess else Logging.EventLoginFailed)
    ensures c.isError == !success
  {
    Logging.WrapperCall(if success then Logging.EventLoginSuccess else Logging.EventLoginFailed,
                        LoginMessage(user, password), Some(request), !success)
  }

  /** What `run` answers and does to the files and the journal, given the state `before` it
      ran: a failed credential lookup or a missing login changes nothing; a login is checked
      against the user database and logged; a failed one is answered through `on_error`. */
  predicate Handled(before: map<string, FileEntry>, after: map<string, FileEntry>, journal0: seq<LogCall>,
                    journal1: seq<LogCall>, dirs: set<string>, root: string, now: int, site: Site, route: Route,
                    request: Request, o: Outcome)
  {
    match Assess(site, route, request)
    case Failed(e) => o == Raise(e) && after == before && journal1 == journal0
    case Denied => o == Respond(Abort(403)) && after == before && journal1 == journal0
    case Anonymous => o == Continue && after == before && journal1 == journal0
    case Login(user, password, database) =>
      LoginHandled(before, after, journal0, journal1, dirs, root, now, site, route, request, user, password, database, o)
  }

  /** What `run` does with a complete login: the database must be a path string naming an
      existing file; the lines of that file decide; the attempt is logged; a refusal is answered
      as the block's `on_error` entry asks. */
  predicate LoginHandled(before: map<string, FileEntry>, after: map<string, FileEntry>, journal0: seq<LogCall>,
                         journal1: seq<LogCall>, dirs: set<string>, root: string, now: int, site: Site,
                         route: Route, request: Request, user: string, password: string, database: Value,
                         o: Outcome)
    requires "authorize" in route.blocks && route.blocks["authorize"].VMap?
  {
    var block := route.blocks["authorize"].fields;
    if !database.VStr? || Join(root, database.s) !in before then
      o.Raise? && after == before && journal1 == journal0
    else
      var verdict := Authorized(Lines(before[Join(root, database.s)].content), user, password);
      if verdict.Err? then
        o == Raise(verdict.error) && after == before && journal1 == journal0
      else
        journal1 == journal0 + [LoginCall(user, password, request, verdict.value)]
        && if verdict.value then o == Continue && after == before
           else match OnErrorAction(block, before, dirs, root)
                case Forbidden => o == Respond(Abort(403)) && after == before
                case Status(code) => o == Respond(Abort(code)) && after == before
                case RedirectTo(location) => o == Respond(Redirect(location)) && after == before
                case Invalid(e) => o == Raise(e) && after == before
                case ServeErrorPage(path) =>
                  ServeFile.Served(before, after, dirs, root, now, site, "",
                                   ErrorRoute(block, path), request, 0, o)
  }

  /** The first half of `run`: finds the route's `authorize` block and reads the credentials
      from the request, stopping at the first failure. */
  method ReadLogin(site: Site, route: Route, request: Request) returns (a: Attempt)
    ensures a == Assess(site, route, request)
  {
    if "authorize" !in route.blocks {
      return Failed("Exception");
    }
    var block := AsObject(route.blocks["authorize"]);
    if !AreRouteConfigValuesExisting(block, CredentialKeys) {
      return Denied;
    }
    var fields := block.value;
    assert CredentialKeys[0] in fields && CredentialKeys[1] in fields;
    var userKey := KeyName(fields["key_username"]);
    if userKey.Err? {
      return Failed(userKey.error);
    }
    var passwordKey := KeyName(fields["key_password"]);
    if passwordKey.Err? {
      return Failed(passwordKey.error);
    }
    var get := GetSource(site, request);
    var post := PostSource(request);
    var u, p := SelectCredentials([get, post], userKey.value, passwordKey.value);
    var user := Collapse(u);
    if user.Err? {
      return Failed(user.error);
    }
    var password := Collapse(p);
    if password.Err? {
      return Failed(password.error);
    }
    if user.value.None? || user.value.value == "" || password.value.None? || password.value.value == "" {
      return Anonymous;
    }
    if "user_db" !in fields {
      return Failed("Exception");
    }
    a := Login(user.value.value, password.value.value, fields["user_db"]);
  }

  /** The answer to a failed login, as the block's `on_error` entry asks. */
  method Refuse(host: Host, site: Site, block: map<string, Value>, request: Request) returns (o: Outcome)
    modifies host`files
    ensures match OnErrorAction(block, old(host.files), host.dirs, host.root)
            case Forbidden => o == Respond(Abort(403)) && host.files == old(host.files)
            case Status(code) => o == Respond(Abort(code)) && host.files == old(host.files)
            case RedirectTo(location) => o == Respond(Redirect(location)) && host.files == old(host.files)
            case Invalid(e) => o == Raise(e) && host.files == old(host.files)
            case ServeErrorPage(path) =>
              ServeFile.Served(old(host.files), host.files, host.dirs, host.root, host.now, site, "",
                               ErrorRoute(block, path), request, 0, o)
  {
    match OnErrorAction(block, host.files, host.dirs, host.root)
    case Forbidden =>
      o := Respond(Abort(403));
    case Status(code) =>
      o := Respond(Abort(code));
    case RedirectTo(location) =>
      o := Respond(Redirect(location));
    case Invalid(e) =>
      o := Raise(e);
    case ServeErrorPage(path) =>
      o := ServeFile.Run(host, site, "", ErrorRoute(block, path), request, 0);
  }

  /** `run`. Reads the credentials; when both are present and non-empty, checks them against the
      database file, logs the attempt, and lets the pipeline go on or answers as `on_error` says. */
  method Run(host: Host, site: Site, route: Route, request: Request) returns (o: Outcome)
    modifies host`files, host`journal
    ensures Handled(old(host.files), host.files, old(host.journal), host.journal, host.dirs, host.root, host.now,
                    site, route, request, o)
  {
    var attempt := ReadLogin(site, route, request);
    match attempt
    case Failed(e) =>
      return Raise(e);
    case Denied =>
      return Respond(Abort(403));
    case Anonymous =>
      return Continue;
    case Login(user, password, database) =>
      o := CheckLogin(host, site, route, request, user, password, database);
  }

  /** The second half of `run`, for a complete login. */
  method CheckLogin(host: Host, site: Site, route: Route, request: Request, user: string, password: string,
                    database: Value) returns (o: Outcome)
    requires "authorize" in route.blocks && route.blocks["authorize"].VMap?
    modifies host`files, host`journal
    ensures LoginHandled(old(host.files), host.files, old(host.journal), host.journal, host.dirs, host.root,
                         host.now, site, route, request, user, password, database, o)
  {
    if !database.VStr? {
      return Raise("TypeError");
    }
    var databasePath := Join(host.root, database.s);
    if databasePath !in host.files {
      return Raise("FileNotFoundError");
    }
    var verdict := IsAuthorized(user, password, host.files[databasePath].content);
    if verdict.Err? {
      return Raise(verdict.error);
    }
    host.journal := host.journal + [LoginCall(user, password, request, verdict.value)];
    if verdict.value {
      return Continue;
    }
    o := Refuse(host, site, route.blocks["authorize"].fields, request);
  }
}
