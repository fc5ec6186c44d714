/** The HTTP boundary as the honeypot sees it: requests, routes, and what an action returns. */
module Web {
  import opened Common

  /** One uploaded file of a multipart request. It is falsy when it has no file name. */
  datatype Upload = Upload(filename: string, content: string, contentLength: int, contentType: string)

  /** An incoming request. `path` is the URL path with its leading slash; `args` and `form` hold
      the first value of every GET and POST field; `files` every file part of the body in
      order, a field possibly repeated; `hash` is the request object's identity hash. */
  datatype Request = Request(
    verb: string,
    url: string,
    path: string,
    queryString: string,
    args: map<string, string>,
    form: map<string, string>,
    remoteAddr: Option<string>,
    userAgent: Option<string>,
    files: seq<(string, Upload)>,
    hash: int)

  /** Some entry of `files` is sent under the field `key`. */
  predicate HasField(files: seq<(string, Upload)>, key: string)
  {
    exists i :: 0 <= i < |files| && files[i].0 == key
  }

  /** The fields of a multipart request as `request.files.items()` yields them: each field once,
      in the order it first appears, with the first file sent under it. */
  function Items(files: seq<(string, Upload)>): (r: seq<(string, Upload)>)
    ensures |r| <= |files|
    ensures files != [] ==> r != []
    decreases |files|
  {
    if files == [] then []
    else
      var rest := Items(files[..|files| - 1]);
      var last := files[|files| - 1];
      if HasField(rest, last.0) then rest else rest + [last]
  }

  /** Every field sent is yielded. */
  lemma {:induction false} ItemsCover(files: seq<(string, Upload)>)
    ensures forall j :: 0 <= j < |files| ==> HasField(Items(files), files[j].0)
    decreases |files|
  {
    if files != [] {
      var prefix := files[..|files| - 1];
      var rest := Items(prefix);
      var r := Items(files);
      ItemsCover(prefix);
      forall j | 0 <= j < |files|
        ensures HasField(r, files[j].0)
      {
        if j < |prefix| {
          assert files[j] == prefix[j];
          var i :| 0 <= i < |rest| && rest[i].0 == prefix[j].0;
          assert r[i] == rest[i];
        } else if !HasField(rest, files[j].0) {
          assert r[|rest|].0 == files[j].0;
        }
      }
    }
  }

  /** No field is yielded twice. */
  lemma {:induction false} ItemsDistinct(files: seq<(string, Upload)>)
    ensures forall i, j :: 0 <= i < j < |Items(files)| ==> Items(files)[i].0 != Items(files)[j].0
    decreases |files|
  {
    if files != [] {
      var prefix := files[..|files| - 1];
      var rest := Items(prefix);
      ItemsDistinct(prefix);
      if !HasField(rest, files[|files| - 1].0) {
        var r := Items(files);
        assert forall i :: 0 <= i < |rest| ==> r[i] == rest[i] && rest[i].0 != r[|rest|].0;
      }
    }
  }

  /** Each yielded entry is the first one sent under its field. */
  lemma {:induction false} ItemsFirst(files: seq<(string, Upload)>)
    ensures forall i :: 0 <= i < |Items(files)| ==>
              exists j :: 0 <= j < |files| && files[j] == Items(files)[i]
                          && forall k :: 0 <= k < j ==> files[k].0 != Items(files)[i].0
    decreases |files|
  {
    if files != [] {
      var prefix := files[..|files| - 1];
      var last := files[|files| - 1];
      var rest := Items(prefix);
      var r := Items(files);
      ItemsFirst(prefix);
      forall i | 0 <= i < |Items(files)|
        ensures exists j :: 0 <= j < |files| && files[j] == Items(files)[i]
                            && forall k :: 0 <= k < j ==> files[k].0 != Items(files)[i].0
      {
        if i < |rest| {
          assert r[i] == rest[i];
          var j :| 0 <= j < |prefix| && prefix[j] == rest[i] && forall k :: 0 <= k < j ==> prefix[k].0 != rest[i].0;
          assert forall k :: 0 <= k < j ==> files[k] == prefix[k];
          assert files[j] == r[i];
        } else {
          ItemsCover(prefix);
          assert r[i] == last;
          forall k | 0 <= k < |prefix|
            ensures files[k].0 != last.0
          {
            assert files[k] == prefix[k];
          }
          assert files[|files| - 1] == r[i];
        }
      }
    } else {
      assert Items(files) == [];
    }
  }

  /** A route definition: the ordered action names, optional response headers, and the
      per-action configuration blocks keyed by action name (`"authorize"`, `"servefile"`, ...). */
  datatype Route = Route(actions: seq<string>, headers: Option<map<string, string>>, blocks: map<string, Value>)

  /** A concrete HTTP response produced by an action. */
  datatype Response =
    | Abort(code: int)
    | Redirect(location: string)
    | Body(text: string)
    | SendFile(path: string)
    | RenderTemplate(name: string, getValues: string, ip: Option<string>)

  /** What one action gives back: nothing, a boolean, a response, or an exception it raised. */
  datatype Outcome = Continue | Boolean(b: bool) | Respond(response: Response) | Raise(error: string)

  /** The results that end the action pipeline: a response, or an exception that escapes it. */
  predicate Terminal(o: Outcome)
  {
    o.Respond? || o.Raise?
  }

  /** `get_string`: the decoded query string with a leading `?`, or nothing when it is empty. */
  function GetString(query: string): (r: string)
    ensures query == "" <==> r == ""
    ensures query != "" ==> |r| == |query| + 1 && r[0] == '?' && r[1..] == query
  {
    if query == "" then "" else "?" + query
  }
}
