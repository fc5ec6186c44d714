/** The `servefile` action: picks the file a route names, optionally forwards capture groups of
    the route key into it, and answers with a rendered template, a placeholder-filled text, a
    watermarked copy of an image, or the file itself. */
module ServeFile {
  import opened Common
  import opened Paths
  import opened Config
  import opened Host
  import opened Web
  import opened Runtime
  import Util

  /** `"$" + str(n)`, the reference to capture group `n` inside a file name. */
  function GroupRef(n: nat): (r: string)
    ensures |r| >= 2 && r[0] == '$'
  {
    "$" + NatToString(n)
  }

  /** The file name after the loop of `_key_pattern_forward`: `$1`, `$2`, ... are replaced in
      ascending order by the groups; a group that took no part in the match (`None`) makes the
      replacement raise. */
  function SubstituteGroups(file: string, groups: seq<Option<string>>): Result<string>
    decreases |groups|
  {
    if groups == [] then Ok(file)
    else
      var n := |groups|;
      match SubstituteGroups(file, groups[..n - 1])
      case Err(e) => Err(e)
      case Ok(f) =>
        if groups[n - 1].None? then Err("TypeError")
        else Ok(ReplaceAll(f, GroupRef(n), groups[n - 1].value))
  }

  /** The forwarding raises exactly when some group is missing. */
  lemma {:induction false} SubstituteGroupsFails(file: string, groups: seq<Option<string>>)
    ensures SubstituteGroups(file, groups).Err? <==> exists i :: 0 <= i < |groups| && groups[i].None?
    ensures SubstituteGroups(file, groups).Err? ==> SubstituteGroups(file, groups).error == "TypeError"
    decreases |groups|
  {
    if groups != [] {
      var n := |groups|;
      var prefix := groups[..n - 1];
      SubstituteGroupsFails(file, prefix);
      if exists i :: 0 <= i < |prefix| && prefix[i].None? {
        var i :| 0 <= i < |prefix| && prefix[i].None?;
        assert groups[i].None?;
      }
      if exists i :: 0 <= i < n && groups[i].None? {
        var i :| 0 <= i < n && groups[i].None?;
        if i < n - 1 {
          assert prefix[i].None?;
        }
      }
    }
  }

  /** A file name without any `$` is forwarded unchanged, whatever the groups hold. */
  lemma {:induction false} NoReferencesKeepFile(file: string, groups: seq<Option<string>>)
    requires '$' !in file
    requires forall i :: 0 <= i < |groups| ==> groups[i].Some?
    ensures SubstituteGroups(file, groups) == Ok(file)
    decreases |groups|
  {
    if groups != [] {
      var n := |groups|;
      NoReferencesKeepFile(file, groups[..n - 1]);
      MissingHeadNotContained(file, GroupRef(n));
      ReplaceAbsent(file, GroupRef(n), groups[n - 1].value);
    }
  }

  /** One group and one `$1` in the file name: the group takes the place of `$1` (route key
      `images/(.+)`, file `files/$1.jpg`, group `foo.png` give `files/foo.png.jpg`). */
  lemma OneGroupForwarded(pre: string, post: string, group: string)
    requires '$' !in pre && '$' !in post
    ensures SubstituteGroups(pre + "$1" + post, [Some(group)]) == Ok(pre + group + post)
  {
    assert NatToString(1) == "1";
    assert GroupRef(1) == "$1";
    assert [Some(group)][..0] == [];
    ReplaceOnce(pre, "$1", post, group);
  }

  /** The file name once the groups, if the key matched, are substituted. */
  function Renamed(found: Option<seq<Option<string>>>, file: string): Result<string>
  {
    if found.Some? then SubstituteGroups(file, found.value) else Ok(file)
  }

  lemma RenamedFails(found: Option<seq<Option<string>>>, file: string)
    ensures Renamed(found, file).Err? <==> found.Some? && exists i :: 0 <= i < |found.value| && found.value[i].None?
  {
    if found.Some? {
      SubstituteGroupsFails(file, found.value);
    }
  }

  /** What `_key_pattern_forward` returns for the groups `found` the route key captured from the
      request path (`None` when it did not match): the rewritten name if that file exists under
      the root, `None` if it does not. */
  function Forwarded(files: map<string, FileEntry>, dirs: set<string>, root: string,
                     found: Option<seq<Option<string>>>, file: string): (r: Result<Option<string>>)
    ensures r.Err? <==> found.Some? && exists i :: 0 <= i < |found.value| && found.value[i].None?
    ensures found.None? ==> r.Ok? && r.value.Some? == (Join(root, file) in files || Join(root, file) in dirs)
    ensures r.Ok? && r.value.Some? ==> Join(root, r.value.value) in files || Join(root, r.value.value) in dirs
    ensures found.None? && r.Ok? && r.value.Some? ==> r.value.value == file
    ensures found.Some? && r.Ok? ==>
              var renamed := SubstituteGroups(file, found.value);
              renamed.Ok?
              && r.value.Some? == (Join(root, renamed.value) in files || Join(root, renamed.value) in dirs)
              && (r.value.Some? ==> r.value.value == renamed.value)
  {
    var renamed := Renamed(found, file);
    RenamedFails(found, file);
    match renamed
    case Err(e) => Err(e)
    case Ok(f) =>
      var target := Join(root, f);
      if target in files || target in dirs then Ok(Some(f)) else Ok(None)
  }

  /** `_key_pattern_forward`: the loop over the captured groups, then the existence test. */
  method KeyPatternForward(host: Host, search: (string, string) -> Option<seq<Option<string>>>,
                           routeKey: string, requestPath: string, file: string)
    returns (r: Result<Option<string>>)
    ensures r == Forwarded(host.files, host.dirs, host.root, search(routeKey, requestPath), file)
  {
    var found := search(routeKey, requestPath);
    var renamed := file;
    if found.Some? {
      var groups := found.value;
      var index := 1;
      while index <= |groups|
        invariant 1 <= index <= |groups| + 1
        invariant SubstituteGroups(file, groups[..index - 1]) == Ok(renamed)
      {
        assert groups[..index][..index - 1] == groups[..index - 1];
        var group := groups[index - 1];
        if group.None? {
          SubstituteGroupsFails(file, groups);
          return Err("TypeError");
        }
        renamed := ReplaceAll(renamed, GroupRef(index), group.value);
        index := index + 1;
      }
      assert groups[..|groups|] == groups;
    }
    var target := Join(host.root, renamed);
    if !host.Exists(target) {
      return Ok(None);
    }
    r := Ok(Some(renamed));
  }

  /** The keys `_apply_watermark` insists on. */
  const WatermarkKeys: seq<string> := ["x", "y", "color", "text"]

  /** The path of the watermarked copy: the same directory, the name's stem with `_tmp`
      appended, and the name's suffix. */
  function WatermarkPath(p: string): string
  {
    var name := BaseName(p);
    Join(DirName(p), Stem(name) + "_tmp" + Suffix(name))
  }

  /** The copy lies beside the original, under the original's stem plus `_tmp` and its suffix,
      and so never overwrites the original. */
  lemma WatermarkBesideOriginal(dir: string, name: string)
    requires IsAbs(dir) && dir[|dir| - 1] != '/'
    requires name != "" && '/' !in name
    requires Suffix(name) != "" ==> !Contains(name[..|name| - 1], Suffix(name))
    ensures DirName(WatermarkPath(Join(dir, name))) == dir
    ensures BaseName(WatermarkPath(Join(dir, name))) == Stem(name) + "_tmp" + Suffix(name)
    ensures WatermarkPath(Join(dir, name)) != Join(dir, name)
  {
    JoinSplits(dir, name);
    var copy := Stem(name) + "_tmp" + Suffix(name);
    ReplaceKeepsAbsent(name, Suffix(name), "", '/');
    assert '/' !in Suffix(name) by {
      if Suffix(name) != "" {
        assert Suffix(name) == name[|name| - |Suffix(name)|..];
      }
    }
    assert '/' !in copy;
    JoinSplits(dir, copy);
    StemSplit(name);
    assert |copy| == |name| + 4;
  }

  /** The watermark text after placeholder replacement: `None` gives the empty text, a string
      is expanded, anything else makes the date formatting raise. */
  function WatermarkText(site: Site, text: Value): (r: Result<string>)
    ensures r.Err? <==> !(text.VNull? || text.VStr?)
    ensures text.VNull? ==> r == Ok("")
  {
    match text
    case VNull => Ok("")
    case VStr(t) => Ok(Util.Expanded(t, site.strftime, site.cfg))
    case _ => Err("TypeError")
  }

  /** What `_apply_watermark` does for the configuration block `watermark` and the image at
      `source`: the path of the copy and the content written there, or the exception. */
  function Watermarked(files: map<string, FileEntry>, dirs: set<string>, site: Site,
                       watermark: Value, source: string): (r: Result<(string, string)>)
    ensures !AreRouteConfigValuesExisting(AsObject(watermark), WatermarkKeys) ==> r.Err?
    ensures source !in files ==> r.Err?
    ensures r.Ok? ==> r.value.0 == WatermarkPath(source)
                      && DirName(WatermarkPath(source)) in dirs && WatermarkPath(source) !in dirs
  {
    var block := AsObject(watermark);
    if !AreRouteConfigValuesExisting(block, WatermarkKeys) then
      Err("Exception")
    else
      var fields := block.value;
      assert WatermarkKeys[0] in fields && WatermarkKeys[1] in fields;
      assert WatermarkKeys[2] in fields && WatermarkKeys[3] in fields;
      match WatermarkText(site, fields["text"])
      case Err(e) => Err(e)
      case Ok(text) =>
        if source !in files then Err("FileNotFoundError")
        else
          var copy := WatermarkPath(source);
          if DirName(copy) in dirs && copy !in dirs then
            Ok((copy, site.draw(files[source].content, fields["x"], fields["y"], text, fields["color"])))
          else Err("FileNotFoundError")
  }

  /** `_apply_watermark`: checks the block, expands the text, draws it onto the image and saves
      the result as the `_tmp` copy. Nothing is written when it raises. */
  method ApplyWatermark(host: Host, site: Site, watermark: Value, source: string) returns (r: Result<string>)
    modifies host`files
    ensures var w := Watermarked(old(host.files), host.dirs, site, watermark, source);
            (w.Err? ==> r == Err(w.error) && host.files == old(host.files))
            && (w.Ok? ==> r == Ok(w.value.0) && host.files == old(host.files)[w.value.0 := FileEntry(w.value.1, host.now)])
  {
    var block := AsObject(watermark);
    if !AreRouteConfigValuesExisting(block, WatermarkKeys) {
      return Err("Exception");
    }
    var fields := block.value;
    assert WatermarkKeys[0] in fields && WatermarkKeys[1] in fields;
    assert WatermarkKeys[2] in fields && WatermarkKeys[3] in fields;
    var copy := WatermarkPath(source);
    var textValue := fields["text"];
    var text: string;
    if textValue.VNull? {
      text := Util.ReplacePlaceholders(None, site.strftime, site.cfg);
    } else if textValue.VStr? {
      text := Util.ReplacePlaceholders(Some(textValue.s), site.strftime, site.cfg);
    } else {
      return Err("TypeError");
    }
    if source !in host.files {
      return Err("FileNotFoundError");
    }
    var image := site.draw(host.files[source].content, fields["x"], fields["y"], text, fields["color"]);
    var saved := host.Write(copy, image);
    if !saved {
      return Err("FileNotFoundError");
    }
    r := Ok(copy);
  }

  /** How a route's `servefile` block is answered, in order of priority. */
  datatype Mode = Template | Placeholders | Watermark | Raw

  /** `key in block and block[key]`, as a truth value. */
  predicate Flag(block: map<string, Value>, key: string)
  {
    key in block && Truthy(block[key])
  }

  /** The mode chain of `run`: a truthy `process_template` wins, then a truthy
      `process_placeholders`, then the mere presence of `watermark`; otherwise the file is sent. */
  function SelectMode(block: map<string, Value>): (m: Mode)
    ensures m == Template <==> Flag(block, "process_template")
    ensures m == Placeholders <==> !Flag(block, "process_template") && Flag(block, "process_placeholders")
    ensures m == Watermark <==> !Flag(block, "process_template") && !Flag(block, "process_placeholders")
                                && "watermark" in block
    ensures m == Raw <==> !Flag(block, "process_template") && !Flag(block, "process_placeholders")
                          && "watermark" !in block
  {
    if Flag(block, "process_template") then Template
    else if Flag(block, "process_placeholders") then Placeholders
    else if "watermark" in block then Watermark
    else Raw
  }

  /** The `file` entry of the block: a string is used as it is; a list yields the element at
      an index within its bounds (`pick` stands for the random choice) and raises when empty;
      anything that is not a string in the end raises. */
  function ChooseFile(file: Value, pick: nat): (r: Result<string>)
    ensures r.Ok? ==> file == VStr(r.value)
                      || (file.VList? && exists i :: 0 <= i < |file.items| && file.items[i] == VStr(r.value))
    ensures file.VStr? ==> r == Ok(file.s)
    ensures file.VList? && file.items == [] ==> r.Err?
    ensures !file.VStr? && !file.VList? ==> r.Err?
    ensures file.VList? && file.items != [] && (forall i :: 0 <= i < |file.items| ==> file.items[i].VStr?) ==> r.Ok?
  {
    match file
    case VStr(s) => Ok(s)
    case VList(items) =>
      if items == [] then Err("ValueError")
      else
        var chosen := items[pick % |items|];
        if chosen.VStr? then Ok(chosen.s) else Err("TypeError")
    case _ => Err("TypeError")
  }

  /** What `run` decides before touching any file. */
  datatype Decision =
    | Fail(error: string)
    | NotFound
    | Render(name: string, getValues: string, ip: Option<string>)
    | FillPlaceholders(path: string)
    | Stamp(watermark: Value, path: string)
    | Send(path: string)

  /** The route's `servefile` block, when it is an object holding `file`. */
  predicate HasFileBlock(route: Route)
  {
    "servefile" in route.blocks && route.blocks["servefile"].VMap? && "file" in route.blocks["servefile"].fields
  }

  /** The decision of `run` for the route registered under `routeKey`. */
  function Decide(files: map<string, FileEntry>, dirs: set<string>, root: string, site: Site,
                  routeKey: string, route: Route, request: Request, pick: nat): (d: Decision)
    ensures !HasFileBlock(route) ==> d.Fail?
    ensures d.NotFound? ==> '(' in routeKey
    ensures HasFileBlock(route) && !d.Fail? && !d.NotFound? ==>
              var mode := SelectMode(route.blocks["servefile"].fields);
              (d.Render? <==> mode == Template) && (d.FillPlaceholders? <==> mode == Placeholders)
              && (d.Stamp? <==> mode == Watermark) && (d.Send? <==> mode == Raw)
    ensures HasFileBlock(route) ==>
              var chosen := ChooseFile(route.blocks["servefile"].fields["file"], pick);
              var forwarded := if chosen.Err? || '(' !in routeKey then Ok(None)
                               else Forwarded(files, dirs, root, site.search(routeKey, request.path), chosen.value);
              (d.Fail? <==> chosen.Err? || forwarded.Err?)
              && (d.NotFound? <==> chosen.Ok? && '(' in routeKey && forwarded.Ok?
                                   && (forwarded.value.None? || forwarded.value.value == ""))
  {
    if "servefile" !in route.blocks then Fail("KeyError")
    else if !route.blocks["servefile"].VMap? then Fail("TypeError")
    else
      var block := route.blocks["servefile"].fields;
      if "file" !in block then Fail("Exception")
      else
        match ChooseFile(block["file"], pick)
        case Err(e) => Fail(e)
        case Ok(chosen) =>
          var forwarded :=
            if '(' in routeKey then Forwarded(files, dirs, root, site.search(routeKey, request.path), chosen)
            else Ok(Some(chosen));
          match forwarded
          case Err(e) => Fail(e)
          case Ok(None) => NotFound
          case Ok(Some(file)) =>
            if '(' in routeKey && file == "" then NotFound
            else
              var target := Join(root, file);
              match SelectMode(block)
              case Template => Render(ReplaceAll(file, "templates/", ""), GetString(request.queryString), request.remoteAddr)
              case Placeholders => FillPlaceholders(target)
              case Watermark => Stamp(block["watermark"], target)
              case Raw => Send(target)
  }

  /** A route key without `(` never answers 404 here, and its file is the one the block names. */
  lemma {:induction false} PlainKeyServesNamedFile(files: map<string, FileEntry>, dirs: set<string>, root: string,
                                                  site: Site, routeKey: string, route: Route, request: Request, pick: nat)
    requires '(' !in routeKey && HasFileBlock(route)
    requires route.blocks["servefile"].fields["file"].VStr?
    ensures var d := Decide(files, dirs, root, site, routeKey, route, request, pick);
            var file := route.blocks["servefile"].fields["file"].s;
            !d.Fail? && !d.NotFound?
            && (d.FillPlaceholders? || d.Stamp? || d.Send? ==> d.path == Join(root, file))
  {
  }

  /** What `run` does to the files and what it answers, given its decision on the files
      `before` it ran: only the watermark mode writes a file (its `_tmp` copy). */
  predicate Served(before: map<string, FileEntry>, after: map<string, FileEntry>, dirs: set<string>,
                   root: string, now: int, site: Site, routeKey: string, route: Route, request: Request,
                   pick: nat, o: Outcome)
  {
    match Decide(before, dirs, root, site, routeKey, route, request, pick)
    case Fail(e) => o == Raise(e) && after == before
    case NotFound => o == Respond(Abort(404)) && after == before
    case Render(name, getValues, ip) => o == Respond(RenderTemplate(name, getValues, ip)) && after == before
    case FillPlaceholders(path) =>
      after == before
      && o == (if path in before then Respond(Body(Util.Expanded(before[path].content, site.strftime, site.cfg)))
               else Raise("FileNotFoundError"))
    case Stamp(watermark, path) =>
      var w := Watermarked(before, dirs, site, watermark, path);
      (w.Err? ==> o == Raise(w.error) && after == before)
      && (w.Ok? ==> o == Respond(SendFile(w.value.0)) && after == before[w.value.0 := FileEntry(w.value.1, now)])
    case Send(path) =>
      after == before && o == (if path in before then Respond(SendFile(path)) else Raise("FileNotFoundError"))
  }

  /** `run`: carries out the decision. */
  method Run(host: Host, site: Site, routeKey: string, route: Route, request: Request, pick: nat) returns (o: Outcome)
    modifies host`files
    ensures Served(old(host.files), host.files, host.dirs, host.root, host.now, site, routeKey, route, request, pick, o)
  {
    if "servefile" !in route.blocks {
      return Raise("KeyError");
    }
    if !route.blocks["servefile"].VMap? {
      return Raise("TypeError");
    }
    var block := route.blocks["servefile"].fields;
    if "file" !in block {
      return Raise("Exception");
    }
    var chosen := ChooseFile(block["file"], pick);
    if chosen.Err? {
      return Raise(chosen.error);
    }
    var file := chosen.value;
    if '(' in routeKey {
      var forwarded := KeyPatternForward(host, site.search, routeKey, request.path, file);
      if forwarded.Err? {
        return Raise(forwarded.error);
      }
      if forwarded.value.None? || forwarded.value.value == "" {
        return Respond(Abort(404));
      }
      file := forwarded.value.value;
    }
    var target := Join(host.root, file);
    var mode := SelectMode(block);
    match mode
    case Template =>
      o := Respond(RenderTemplate(ReplaceAll(file, "templates/", ""), GetString(request.queryString), request.remoteAddr));
    case Placeholders =>
      if target !in host.files {
        return Raise("FileNotFoundError");
      }
      var content := Util.ReplacePlaceholders(Some(host.files[target].content), site.strftime, site.cfg);
      o := Respond(Body(content));
    case Watermark =>
      var copy := ApplyWatermark(host, site, block["watermark"], target);
      if copy.Err? {
        return Raise(copy.error);
      }
      o := Respond(SendFile(copy.value));
    case Raw =>
      if target !in host.files {
        return Raise("FileNotFoundError");
      }
      o := Respond(SendFile(target));
  }
}
