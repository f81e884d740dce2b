/**
 * The `api` module's pure part: the OpenAPI spec records, their lookups by
 * name and by path, the argv scanners for `--debug` and `--bind`, and the
 * Swagger URL of a spec.
 */
module Api {
  import opened Errors
  import opened Seqs
  import opened Text

  /** `APISpec`: a spec's title and the path of its raw entrypoint file. */
  datatype APISpec = APISpec(name: string, entrypointPath: string)

  /** `ServerArgs`: where to serve, which specs, and whether in debug mode. */
  datatype ServerArgs = ServerArgs(host: string, port: int, apiSpecs: seq<APISpec>, isDebug: bool)

  const BindFlagOptions: seq<string> := ["-b", "--bind"]
  const DebugFlagOptions: seq<string> := ["-d", "--debug"]
  const DefaultHost := "0.0.0.0"
  const DefaultPort := 5000

  // ---- lookups ---------------------------------------------------------------

  /** `get_api_spec_by_name`: the first spec, in tuple order, with that exact name. */
  function GetApiSpecByName(server: ServerArgs, name: string): (r: Result<APISpec>)
    ensures r.Ok? ==> exists i :: 0 <= i < |server.apiSpecs| && server.apiSpecs[i] == r.value &&
                        r.value.name == name &&
                        forall j :: 0 <= j < i ==> server.apiSpecs[j].name != name
    ensures r.Err? <==> forall s :: s in server.apiSpecs ==> s.name != name
    ensures r.Err? ==> r.error == APISpecNotFound
  {
    match FindFirst(server.apiSpecs, (s: APISpec) => s.name == name)
    case None => Err(APISpecNotFound)
    case Some(i) => Ok(server.apiSpecs[i])
  }

  /**
   * The route fix: a path whose first four characters are "home" lost its
   * leading slash in the web framework's routing and gets it back.
   */
  function HomeFix(path: string): (r: string)
    ensures |path| >= 4 && path[..4] == "home" ==> r == "/" + path
    ensures !(|path| >= 4 && path[..4] == "home") ==> r == path
  {
    if |path| >= 4 && path[..4] == "home" then "/" + path else path
  }

  /** Fixing a path twice is fixing it once: a fixed path starts with "/", not "home". */
  lemma HomeFixIdempotent(path: string)
    ensures HomeFix(HomeFix(path)) == HomeFix(path)
  {
    if |path| >= 4 && path[..4] == "home" {
      var p := "/" + path;
      assert p[..4][0] == '/';
    }
  }

  /** `get_api_spec_by_entrypoint_path`: the first spec whose entrypoint equals the fixed path. */
  function GetApiSpecByEntrypointPath(server: ServerArgs, path: string): (r: Result<APISpec>)
    ensures r.Ok? ==> exists i :: 0 <= i < |server.apiSpecs| && server.apiSpecs[i] == r.value &&
                        r.value.entrypointPath == HomeFix(path) &&
                        forall j :: 0 <= j < i ==> server.apiSpecs[j].entrypointPath != HomeFix(path)
    ensures r.Err? <==> forall s :: s in server.apiSpecs ==> s.entrypointPath != HomeFix(path)
    ensures r.Err? ==> r.error == APISpecNotFound
  {
    var fixed := HomeFix(path);
    match FindFirst(server.apiSpecs, (s: APISpec) => s.entrypointPath == fixed)
    case None => Err(APISpecNotFound)
    case Some(i) => Ok(server.apiSpecs[i])
  }

  /** `get_api_spec_by_dirname_path`: the first spec whose entrypoint's directory is the fixed path. */
  function GetApiSpecByDirnamePath(server: ServerArgs, path: string): (r: Result<APISpec>)
    ensures r.Ok? ==> exists i :: 0 <= i < |server.apiSpecs| && server.apiSpecs[i] == r.value &&
                        Dirname(r.value.entrypointPath) == HomeFix(path) &&
                        forall j :: 0 <= j < i ==> Dirname(server.apiSpecs[j].entrypointPath) != HomeFix(path)
    ensures r.Err? <==> forall s :: s in server.apiSpecs ==> Dirname(s.entrypointPath) != HomeFix(path)
    ensures r.Err? ==> r.error == APISpecNotFound
  {
    var fixed := HomeFix(path);
    match FindFirst(server.apiSpecs, (s: APISpec) => Dirname(s.entrypointPath) == fixed)
    case None => Err(APISpecNotFound)
    case Some(i) => Ok(server.apiSpecs[i])
  }

  // ---- os.path.dirname (POSIX) -----------------------------------------------

  /** One past the last `/` of `p` (`p.rfind('/') + 1`), or 0 when there is none. */
  function LastSlashEnd(p: string): (n: nat)
    ensures n <= |p|
    ensures n > 0 ==> p[n - 1] == '/'
    ensures forall i :: n <= i < |p| ==> p[i] != '/'
  {
    if |p| == 0 then 0
    else if p[|p| - 1] == '/' then |p|
    else LastSlashEnd(p[..|p| - 1])
  }

  predicate AllSlashes(s: string) {
    forall i :: 0 <= i < |s| ==> s[i] == '/'
  }

  /** `s.rstrip('/')`. */
  function RStripSlashes(s: string): (r: string)
    ensures |r| <= |s| && r == s[..|r|]
    ensures |r| > 0 ==> r[|r| - 1] != '/'
    ensures forall i :: |r| <= i < |s| ==> s[i] == '/'
  {
    if |s| > 0 && s[|s| - 1] == '/' then RStripSlashes(s[..|s| - 1]) else s
  }

  /**
   * POSIX `os.path.dirname`: everything up to the last `/`, with trailing
   * slashes removed unless that head is made of slashes only.
   */
  function Dirname(p: string): string {
    var head := p[..LastSlashEnd(p)];
    if |head| > 0 && !AllSlashes(head) then RStripSlashes(head) else head
  }

  /** A path without `/` has an empty directory part. */
  lemma DirnameOfBareName(f: string)
    requires '/' !in f
    ensures Dirname(f) == ""
  {
  }

  /** The directory of `d/f` is `d`, for a file name `f` and a directory `d` not ending in `/`. */
  lemma {:induction false} DirnameOfJoin(d: string, f: string)
    requires '/' !in f
    requires |d| > 0 && d[|d| - 1] != '/'
    ensures Dirname(d + "/" + f) == d
  {
    var p := d + "/" + f;
    LastSlashAfter(d, f);
    assert p[..|d| + 1] == d + "/";
    assert (d + "/")[..|d|] == d;
    assert (d + "/")[|d| - 1] == d[|d| - 1];
    assert !AllSlashes(d + "/");
    assert RStripSlashes(d + "/") == RStripSlashes(d);
  }

  /**
   * The slash rule: for a file name `f` after a run of one or more slashes,
   * the directory is the part before the run, or the run itself when
   * nothing precedes it.
   */
  lemma DirnameOfSlashRun(d: string, run: string, f: string)
    requires '/' !in f
    requires |run| > 0 && AllSlashes(run)
    requires |d| == 0 || d[|d| - 1] != '/'
    ensures Dirname(d + run + f) == if d == "" then run else d
  {
    var p := d + run + f;
    var front := d + run[..|run| - 1];
    assert p == front + "/" + f by { assert run == run[..|run| - 1] + [run[|run| - 1]]; }
    LastSlashAfter(front, f);
    var head := p[..|d| + |run|];
    assert head == d + run;
    if d != "" {
      assert head[|d| - 1] == d[|d| - 1];
      assert !AllSlashes(head);
      RStripBeforeRun(d, run);
    }
  }

  /** Stripping the trailing slashes of `d + run` gives back `d`, when `d` does not end in `/`. */
  lemma RStripBeforeRun(d: string, run: string)
    requires AllSlashes(run)
    requires |d| == 0 || d[|d| - 1] != '/'
    ensures RStripSlashes(d + run) == d
  {
    assert (d + run)[..|d|] == d;
  }

  /** The last `/` of `d + "/" + f`, with `f` free of `/`, is the one just before `f`. */
  lemma {:induction false} LastSlashAfter(d: string, f: string)
    requires '/' !in f
    ensures LastSlashEnd(d + "/" + f) == |d| + 1
  {
    var p := d + "/" + f;
    if |f| == 0 {
      assert p == d + "/";
    } else {
      assert p[..|p| - 1] == d + "/" + f[..|f| - 1];
      assert f[|f| - 1] in f;
      LastSlashAfter(d, f[..|f| - 1]);
    }
  }

  // ---- argv scanners ---------------------------------------------------------

  /** `_parse_debug_flag`: debug mode iff "-d" or "--debug" is among the arguments. */
  function ParseDebugFlag(args: seq<string>): (r: bool)
    ensures r <==> "-d" in args || "--debug" in args
  {
    var found := FindFirst(DebugFlagOptions, (option: string) => option in args);
    assert found.None? ==> DebugFlagOptions[0] !in args && DebugFlagOptions[1] !in args;
    found.Some?
  }

  /**
   * `_parse`: `host, port = s.split(":")` then `int(port)`. The string must
   * hold exactly one `:`; the host is the text before it and the port is the
   * text after it read as an integer, which must succeed.
   */
  function ParseBindString(s: string): (r: Result<(string, int)>)
    ensures Count(s, ':') != 1 ==> r == Err(UnpackMismatch)
    ensures r.Ok? ==> Count(s, ':') == 1 && ':' !in r.value.0
    ensures r.Err? ==> r.error == UnpackMismatch || r.error == InvalidIntLiteral
    ensures Count(s, ':') == 1 ==>
              |Split(s, ':')| == 2 && (r.Ok? <==> ParseInt(Split(s, ':')[1]).Ok?)
    ensures r.Ok? ==> |Split(s, ':')| == 2 && ParseInt(Split(s, ':')[1]).Ok? &&
                      r.value == (Split(s, ':')[0], ParseInt(Split(s, ':')[1]).value)
  {
    SplitCount(s, ':');
    SplitPartsFree(s, ':');
    var parts := Split(s, ':');
    if |parts| != 2 then Err(UnpackMismatch)
    else match ParseInt(parts[1])
         case Err(e) => Err(e)
         case Ok(port) => Ok((parts[0], port))
  }

  /** A `host:port` string built from a host without `:` parses back to that host and port. */
  lemma BindStringRoundTrip(host: string, port: nat)
    requires ':' !in host
    ensures ParseBindString(host + ":" + DecimalString(port)) == Ok((host, port))
  {
    var d := DecimalString(port);
    assert ':' !in d by {
      forall i | 0 <= i < |d| ensures d[i] != ':' {
        assert IsDigit(d[i]);
      }
    }
    SplitPair(host, d, ':');
    ParseIntDecimal(port);
  }

  /** A `host:port` string whose port is not an integer literal is rejected with InvalidIntLiteral. */
  lemma BindStringBadPort(host: string, port: string)
    requires ':' !in host && ':' !in port
    requires ParseInt(port).Err?
    ensures ParseBindString(host + ":" + port) == Err(InvalidIntLiteral)
  {
    SplitPair(host, port, ':');
  }

  /** The token after the flag at position `i`, parsed; a flag in last position has none. */
  function BindAfter(args: seq<string>, i: nat): (r: Result<(string, int)>)
    requires i < |args|
    ensures i + 1 == |args| ==> r == Err(IndexOutOfRange)
    ensures i + 1 < |args| ==> r == ParseBindString(args[i + 1])
  {
    if i + 1 < |args| then ParseBindString(args[i + 1]) else Err(IndexOutOfRange)
  }

  /**
   * `_parse_binded_host_port`: the first bind option present, "-b" before
   * "--bind", decides; the token after its first occurrence is parsed.
   * Without either flag the server binds to 0.0.0.0:5000.
   */
  method ParseBindedHostPort(args: seq<string>) returns (r: Result<(string, int)>)
    ensures "-b" !in args && "--bind" !in args ==> r == Ok((DefaultHost, DefaultPort))
    ensures "-b" in args ==> r == BindAfter(args, IndexOf(args, "-b").value)
    ensures "-b" !in args && "--bind" in args ==> r == BindAfter(args, IndexOf(args, "--bind").value)
  {
    for k := 0 to |BindFlagOptions|
      invariant forall j :: 0 <= j < k ==> BindFlagOptions[j] !in args
    {
      var option := BindFlagOptions[k];
      if option in args {
        assert k == 1 ==> BindFlagOptions[0] !in args;
        var at := IndexOf(args, option).value;
        return BindAfter(args, at);
      }
    }
    assert BindFlagOptions[0] !in args && BindFlagOptions[1] !in args;
    r := Ok((DefaultHost, DefaultPort));
  }

  // ---- Swagger URL -----------------------------------------------------------

  predicate HasDoubleSlash(s: string) {
    exists i :: 0 <= i < |s| - 1 && s[i] == '/' && s[i + 1] == '/'
  }

  /** `s.replace("//", "/")`: each non-overlapping "//", scanning left to right, becomes "/". */
  function ReplaceDoubleSlash(s: string): (r: string)
    ensures |r| <= |s|
  {
    if |s| < 2 then s
    else if s[0] == '/' && s[1] == '/' then "/" + ReplaceDoubleSlash(s[2..])
    else [s[0]] + ReplaceDoubleSlash(s[1..])
  }

  /** A string without "//" is left as it is. */
  lemma {:induction false} ReplaceWithoutDoubleSlash(s: string)
    requires !HasDoubleSlash(s)
    ensures ReplaceDoubleSlash(s) == s
  {
    if |s| >= 2 {
      assert !(s[0] == '/' && s[1] == '/');
      NoDoubleSlashTail(s);
      ReplaceWithoutDoubleSlash(s[1..]);
    }
  }

  /** Dropping the first character cannot create a "//". */
  lemma NoDoubleSlashTail(s: string)
    requires |s| > 0 && !HasDoubleSlash(s)
    ensures !HasDoubleSlash(s[1..])
  {
    forall i | 0 <= i < |s[1..]| - 1 ensures !(s[1..][i] == '/' && s[1..][i + 1] == '/') {
      assert s[1..][i] == s[i + 1] && s[1..][i + 1] == s[i + 2];
    }
  }

  /**
   * The first "//" of a string becomes "/", and the scan goes on after it,
   * so replacements do not overlap: with `a` empty and `b` = "/", "///"
   * gives "//". The part before the first "//" holds no "//" and does not
   * end in `/` (else an earlier "//" would be the first).
   */
  lemma {:induction false} ReplaceFirstDoubleSlash(a: string, b: string)
    requires !HasDoubleSlash(a)
    requires |a| == 0 || a[|a| - 1] != '/'
    ensures ReplaceDoubleSlash(a + "//" + b) == a + "/" + ReplaceDoubleSlash(b)
  {
    var s := a + "//" + b;
    if |a| == 0 {
      assert s == "//" + b && s[2..] == b;
    } else {
      var t := a[1..];
      assert s[0] == a[0] && s[1..] == t + "//" + b;
      assert !(s[0] == '/' && s[1] == '/') by {
        if |a| >= 2 {
          assert s[1] == a[1];
          assert !(a[0] == '/' && a[1] == '/');
        }
      }
      assert ReplaceDoubleSlash(s) == [a[0]] + ReplaceDoubleSlash(t + "//" + b);
      NoDoubleSlashTail(a);
      assert |t| == 0 || t[|t| - 1] == a[|a| - 1];
      ReplaceFirstDoubleSlash(t, b);
      assert a == [a[0]] + t;
    }
  }

  /** One case worked out: "/raw//x" becomes "/raw/x". */
  lemma RawDoubleSlashExample(u: string)
    requires u == "/raw//x"
    ensures ReplaceDoubleSlash(u) == "/raw/x"
  {
    assert !HasDoubleSlash("/raw");
    assert u == "/raw" + "//" + "x";
    ReplaceFirstDoubleSlash("/raw", "x");
  }

  /** Only slashes are removed: everything else keeps its order. */
  lemma {:induction false} ReplaceKeepsNonSlashes(s: string)
    ensures RemoveChar(ReplaceDoubleSlash(s), '/') == RemoveChar(s, '/')
  {
    if |s| >= 2 {
      if s[0] == '/' && s[1] == '/' {
        ReplaceKeepsNonSlashes(s[2..]);
        RemoveCharAppend("/", ReplaceDoubleSlash(s[2..]), '/');
        assert s[1..][1..] == s[2..];
      } else {
        ReplaceKeepsNonSlashes(s[1..]);
        RemoveCharAppend([s[0]], ReplaceDoubleSlash(s[1..]), '/');
      }
    }
  }

  /** The URL the Swagger page loads for `apiName`: "/raw" and the spec's entrypoint, "//" collapsed. */
  function SwaggerUrl(server: ServerArgs, apiName: string): (r: Result<string>)
    ensures r.Err? <==> GetApiSpecByName(server, apiName).Err?
    ensures r.Ok? ==> RemoveChar(r.value, '/') ==
                      "raw" + RemoveChar(GetApiSpecByName(server, apiName).value.entrypointPath, '/')
  {
    match GetApiSpecByName(server, apiName)
    case Err(e) => Err(e)
    case Ok(spec) =>
      var url := "/raw" + spec.entrypointPath;
      ReplaceKeepsNonSlashes(url);
      RemoveCharAppend("/raw", spec.entrypointPath, '/');
      RawWithoutSlash("/raw");
      Ok(ReplaceDoubleSlash(url))
  }

  /** Taking the slashes out of "/raw" leaves "raw". */
  lemma RawWithoutSlash(u: string)
    requires u == "/raw"
    ensures RemoveChar(u, '/') == "raw"
  {
    assert u[0] == '/' && u[1..] == "raw";
    assert "raw"[0] == 'r' && "raw"[1..] == "aw";
    assert "aw"[0] == 'a' && "aw"[1..] == "w";
    assert "w"[0] == 'w' && "w"[1..] == "";
    calc {
      RemoveChar(u, '/');
      RemoveChar("raw", '/');
      "r" + RemoveChar("aw", '/');
      "r" + ("a" + RemoveChar("w", '/'));
      "r" + ("a" + "w");
      "raw";
    }
  }

  /** For an entrypoint without "//" (any usual absolute path), the URL is "/raw" followed by the entrypoint itself. */
  lemma SwaggerUrlOfAbsolutePath(server: ServerArgs, apiName: string)
    requires GetApiSpecByName(server, apiName).Ok?
    requires !HasDoubleSlash(GetApiSpecByName(server, apiName).value.entrypointPath)
    ensures SwaggerUrl(server, apiName) == Ok("/raw" + GetApiSpecByName(server, apiName).value.entrypointPath)
  {
    var e := GetApiSpecByName(server, apiName).value.entrypointPath;
    var url := "/raw" + e;
    assert !HasDoubleSlash(url) by {
      forall i | 0 <= i < |url| - 1 ensures !(url[i] == '/' && url[i + 1] == '/') {
        if i >= 4 {
          assert url[i] == e[i - 4] && url[i + 1] == e[i - 3];
        }
      }
    }
    ReplaceWithoutDoubleSlash(url);
  }
}
