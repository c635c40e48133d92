/**
 The `compile` command: from the services of the project it builds the compose file,
 a `.env` file beside every service that declares values for one, the lists of scripts
 to run after switching and at start, and, when the proxy is enabled, a `devctl-proxy`
 service whose environment carries the routing table.

 The project configuration is a JSON value read with lodash `get` semantics; the deep
 merge of compose fragments is a parameter; the file system is a snapshot map from
 resolved paths to contents.
 */
module Compile {

  import opened Wrappers
  import opened Strings
  import opened Objects
  import opened Json
  import Paths
  import DotEnv

  /** A service as the configuration loader resolves it: its own fragments, each of which
      may be `undefined`. */
  datatype Service = Service(
    name: string,
    path: string,
    compose: Option<Json>,
    dotenv: Option<Json>,
    afterSwitch: Option<Json>,
    start: Option<Json>)

  /** Why `compile` stops: a JavaScript `TypeError`, or a file `readFile` cannot open. */
  datatype CompileError = TypeError | MissingFile(path: string)

  /** The file snapshot: resolved path to content. */
  type Files = map<string, string>

  /** lodash `get(value, path)`: walks object properties; `None` is `undefined`, and so is
      any step through a value that is not an object. */
  function GetPath(v: Json, path: seq<string>): (r: Option<Json>)
    ensures |path| == 0 ==> r == Some(v)
    decreases |path|
  {
    if |path| == 0 then Some(v)
    else if v.JObject? then
      match Get(v.fields, path[0])
      case None => None
      case Some(child) => GetPath(child, path[1..])
    else None
  }

  /** Results of steps that run in order: the first failure wins, otherwise the outputs
      are concatenated. */
  function Then<T>(a: Result<seq<T>, CompileError>, b: Result<seq<T>, CompileError>): (r: Result<seq<T>, CompileError>)
    ensures r.Ok? <==> a.Ok? && b.Ok?
    ensures r.Ok? ==> r.value == a.value + b.value
    ensures a.Err? ==> r == a
    ensures a.Ok? && b.Err? ==> r == b
  {
    if a.Err? then a else if b.Err? then b else Ok(a.value + b.value)
  }

  lemma ThenAssoc<T>(a: Result<seq<T>, CompileError>, b: Result<seq<T>, CompileError>, c: Result<seq<T>, CompileError>)
    ensures Then(Then(a, b), c) == Then(a, Then(b, c))
  {
    if a.Ok? && b.Ok? && c.Ok? {
      assert a.value + b.value + c.value == a.value + (b.value + c.value);
    }
  }

  // ---------------------------------------------------------------- compose

  /** `compose || {}`: a truthy fragment as given, and never a falsy one. */
  function ComposeSource(s: Service): (r: Json)
    ensures Truthy(r)
    ensures TruthyOpt(s.compose) ==> r == s.compose.value
  {
    if TruthyOpt(s.compose) then s.compose.value else JObject([])
  }

  /** The compose fragments of the services deep-merged in order onto `acc`: the last
      service's fragment is merged last, onto the merge of all the others. */
  function ComposeOf(services: seq<Service>, merge: (Obj<Json>, Json) -> Obj<Json>, acc: Obj<Json>): (r: Obj<Json>)
    ensures |services| == 0 ==> r == acc
    ensures |services| > 0 ==>
      r == merge(ComposeOf(services[..|services| - 1], merge, acc), ComposeSource(services[|services| - 1]))
    decreases |services|
  {
    if |services| == 0 then acc
    else
      var n := |services|;
      var next := merge(acc, ComposeSource(services[0]));
      assert n > 1 ==> services[..n - 1][1..] == services[1..][..n - 2];
      assert n > 1 ==> ComposeOf(services[..n - 1], merge, acc) == ComposeOf(services[1..][..n - 2], merge, next);
      ComposeOf(services[1..], merge, next)
  }

  /** Merging is a left fold: a longer list of services continues from the merge of its
      first part. */
  lemma {:induction false} ComposeOfAppend(a: seq<Service>, b: seq<Service>, merge: (Obj<Json>, Json) -> Obj<Json>, acc: Obj<Json>)
    ensures ComposeOf(a + b, merge, acc) == ComposeOf(b, merge, ComposeOf(a, merge, acc))
    decreases |a|
  {
    if |a| > 0 {
      assert (a + b)[0] == a[0] && (a + b)[1..] == a[1..] + b;
      ComposeOfAppend(a[1..], b, merge, merge(acc, ComposeSource(a[0])));
    } else {
      assert a + b == b;
    }
  }

  // ---------------------------------------------------------------- .env files

  /** The pairs the spread `...dotenv` assigns: an object's own properties, an array's or a
      string's indexed elements, and nothing for any other value. */
  function SpreadSource(v: Json): (r: seq<(string, Json)>)
    ensures v.JObject? ==> r == v.fields
  {
    match v
    case JObject(fs) => fs
    case JArray(items) => seq(|items|, i requires 0 <= i < |items| => (NatToString(i), items[i]))
    case JString(s) => seq(|s|, i requires 0 <= i < |s| => (NatToString(i), JString([s[i]])))
    case _ => []
  }

  /** Where a service's `.env` lives. */
  function EnvPath(s: Service): string
  {
    Paths.Resolve(s.path, ".env")
  }

  /** The properties of the `.env` file after the merge: the existing file's properties
      (none when it cannot be read), then the service's `dotenv` assigned over them. */
  function MergedEnv(existing: Option<string>, dotenv: Json): (r: DotEnv.Env)
    ensures forall k :: (Get(r, k) ==
      (if LastWith(SpreadSource(dotenv), k).Some? then LastWith(SpreadSource(dotenv), k)
       else if existing.Some? then Get(DotEnv.ParseEnv(existing.value), k) else None))
  {
    var before := if existing.Some? then DotEnv.ParseEnv(existing.value) else [];
    Spread(before, SpreadSource(dotenv))
  }

  /** The text written to the `.env` file: it reads back as the merged properties whenever
      they are ones the reader can give back. */
  function EnvFileText(existing: Option<string>, dotenv: Json, eol: string): (r: string)
    ensures DotEnv.IsEol(eol) && DotEnv.Writable(MergedEnv(existing, dotenv)) ==>
      DotEnv.ParseEnv(r) == MergedEnv(existing, dotenv)
  {
    var merged := MergedEnv(existing, dotenv);
    assert DotEnv.IsEol(eol) && DotEnv.Writable(merged) ==>
      DotEnv.ParseEnv(DotEnv.StringifyToEnv(merged, eol)) == merged by {
      if DotEnv.IsEol(eol) && DotEnv.Writable(merged) {
        DotEnv.ParseStringifyRoundTrip(merged, eol);
      }
    }
    DotEnv.StringifyToEnv(merged, eol)
  }

  /** The services whose `dotenv` is truthy, in order: the ones that get a `.env` file. */
  function DotenvServices(services: seq<Service>): (r: seq<Service>)
    ensures |r| <= |services|
    ensures forall i :: 0 <= i < |r| ==> TruthyOpt(r[i].dotenv) && r[i] in services
  {
    if |services| == 0 then []
    else
      var rest := DotenvServices(services[1..]);
      assert forall i :: 0 <= i < |rest| ==> rest[i] in services by {
        forall i | 0 <= i < |rest| ensures rest[i] in services {
          assert rest[i] in services[1..];
        }
      }
      if TruthyOpt(services[0].dotenv) then [services[0]] + rest else rest
  }

  /** The `.env` files written, in order, as (path, content).  Each file is read after the
      earlier writes, so two services sharing a directory see each other's properties. */
  function EnvFiles(services: seq<Service>, files: Files, eol: string): (r: seq<(string, string)>)
    ensures PathsOf(r) == EnvPaths(DotenvServices(services))
    ensures |r| == |DotenvServices(services)|
    ensures forall i :: 0 <= i < |r| ==>
      r[i].1 == EnvFileText(FileAt(Written(files, r[..i]), r[i].0), DotenvServices(services)[i].dotenv.value, eol)
  {
    var content := (s: Service, existing: Option<string>) =>
      if s.dotenv.Some? then EnvFileText(existing, s.dotenv.value, eol) else "";
    EnvFilesPaths(services, files, content);
    WriteEachContents(services, files, content);
    WriteEach(services, files, content)
  }

  /** What a path holds in a snapshot, `None` when it is not there. */
  function FileAt(files: Files, path: string): Option<string>
  {
    if path in files then Some(files[path]) else None
  }

  /** Writes the `.env` file of each service with a truthy `dotenv` in turn, the content
      computed from what the file holds after the earlier writes. */
  function WriteEach(services: seq<Service>, files: Files, content: (Service, Option<string>) -> string): (r: seq<(string, string)>)
    decreases |services|
  {
    if |services| == 0 then []
    else
      var s := services[0];
      if !TruthyOpt(s.dotenv) then WriteEach(services[1..], files, content)
      else
        var path := EnvPath(s);
        var text := content(s, FileAt(files, path));
        [(path, text)] + WriteEach(services[1..], files[path := text], content)
  }

  /** The directories' `.env` paths of the services, in order. */
  function EnvPaths(services: seq<Service>): (r: seq<string>)
    ensures |r| == |services| && forall i :: 0 <= i < |services| ==> r[i] == EnvPath(services[i])
  {
    seq(|services|, i requires 0 <= i < |services| => EnvPath(services[i]))
  }

  function PathsOf(writes: seq<(string, string)>): (r: seq<string>)
    ensures |r| == |writes| && forall i :: 0 <= i < |writes| ==> r[i] == writes[i].0
  {
    seq(|writes|, i requires 0 <= i < |writes| => writes[i].0)
  }

  /** One `.env` file is written per service with a truthy `dotenv`, in service order,
      beside that service. */
  lemma {:induction false} EnvFilesPaths(services: seq<Service>, files: Files, content: (Service, Option<string>) -> string)
    ensures PathsOf(WriteEach(services, files, content)) == EnvPaths(DotenvServices(services))
    decreases |services|
  {
    if |services| > 0 {
      var s := services[0];
      if !TruthyOpt(s.dotenv) {
        EnvFilesPaths(services[1..], files, content);
        assert DotenvServices(services) == DotenvServices(services[1..]);
      } else {
        var path := EnvPath(s);
        var files' := files[path := content(s, FileAt(files, path))];
        EnvFilesPaths(services[1..], files', content);
        WriteStep(services, files, content);
      }
    }
  }

  /** A service with a truthy `dotenv` adds its path in front of the later ones. */
  lemma WriteStep(services: seq<Service>, files: Files, content: (Service, Option<string>) -> string)
    requires |services| > 0 && TruthyOpt(services[0].dotenv)
    requires
      var path := EnvPath(services[0]);
      var files' := files[path := content(services[0], FileAt(files, path))];
      PathsOf(WriteEach(services[1..], files', content)) == EnvPaths(DotenvServices(services[1..]))
    ensures PathsOf(WriteEach(services, files, content)) == EnvPaths(DotenvServices(services))
  {
    var s := services[0];
    var ds := DotenvServices(services[1..]);
    var path := EnvPath(s);
    var text := content(s, FileAt(files, path));
    var rest := WriteEach(services[1..], files[path := text], content);
    assert PathsOf(WriteEach(services, files, content)) == [path] + PathsOf(rest) by {
      assert WriteEach(services, files, content) == [(path, text)] + rest;
      PathsOfCons((path, text), rest);
    }
    assert EnvPaths(DotenvServices(services)) == [path] + EnvPaths(ds) by {
      assert DotenvServices(services) == [s] + ds;
      EnvPathsCons(s, ds);
    }
  }

  /** Each write's content is computed from its service and from what its path holds after
      the earlier writes. */
  lemma {:induction false} WriteEachContents(services: seq<Service>, files: Files, content: (Service, Option<string>) -> string)
    ensures |WriteEach(services, files, content)| == |DotenvServices(services)|
    ensures
      var r := WriteEach(services, files, content);
      forall i :: 0 <= i < |r| ==> r[i].1 == content(DotenvServices(services)[i], FileAt(Written(files, r[..i]), r[i].0))
    decreases |services|
  {
    EnvFilesPaths(services, files, content);
    if |services| > 0 {
      var s := services[0];
      if !TruthyOpt(s.dotenv) {
        WriteEachContents(services[1..], files, content);
        assert DotenvServices(services) == DotenvServices(services[1..]);
      } else {
        var path := EnvPath(s);
        var text := content(s, FileAt(files, path));
        var files' := files[path := text];
        var rest := WriteEach(services[1..], files', content);
        WriteEachContents(services[1..], files', content);
        var r := WriteEach(services, files, content);
        var ds := DotenvServices(services);
        assert r == [(path, text)] + rest;
        assert ds == [s] + DotenvServices(services[1..]);
        forall i | 0 <= i < |r| ensures r[i].1 == content(ds[i], FileAt(Written(files, r[..i]), r[i].0)) {
          if i > 0 {
            assert r[..i][0] == (path, text) && r[..i][1..] == rest[..i - 1];
            assert Written(files, r[..i]) == Written(files', rest[..i - 1]);
          } else {
            assert Written(files, r[..0]) == files;
          }
        }
      }
    }
  }

  lemma PathsOfCons(w: (string, string), rest: seq<(string, string)>)
    ensures PathsOf([w] + rest) == [w.0] + PathsOf(rest)
  {
  }

  lemma EnvPathsCons(s: Service, rest: seq<Service>)
    ensures EnvPaths([s] + rest) == [EnvPath(s)] + EnvPaths(rest)
  {
  }

  /** The files after the writes, in order. */
  function Written(files: Files, writes: seq<(string, string)>): Files
    decreases |writes|
  {
    if |writes| == 0 then files else Written(files[writes[0].0 := writes[0].1], writes[1..])
  }

  /** A written `.env` file reads back with every name of `dotenv` set to its value and
      every other name kept from the file it replaced. */
  lemma EnvFileReadsBack(existing: Option<string>, fs: seq<(string, Json)>, eol: string, k: string)
    requires DotEnv.IsEol(eol) && DotEnv.Writable(fs)
    ensures
      var read := DotEnv.ParseEnv(EnvFileText(existing, JObject(fs), eol));
      && (HasKey(fs, k) ==> Get(read, k) == Get(fs, k))
      && (!HasKey(fs, k) ==> Get(read, k) == (if existing.Some? then Get(DotEnv.ParseEnv(existing.value), k) else None))
  {
    var merged := MergedEnv(existing, JObject(fs));
    assert DotEnv.ParseEnv(DotEnv.StringifyToEnv(merged, eol)) == merged by {
      if existing.Some? {
        DotEnv.MergeIsStable(existing.value, fs, eol);
      } else {
        FromDistinctPairs(fs);
        assert merged == fs;
        DotEnv.ParseStringifyRoundTrip(fs, eol);
      }
    }
    assert LastWith(fs, k) == Get(fs, k) by { FromDistinctPairs(fs); }
  }

  /** The `i`-th `.env` file `compile` writes reads back with every name of its service's
      `dotenv` set to its value, and every other name as the file held it before. */
  lemma EnvFilesReadBack(services: seq<Service>, files: Files, eol: string, i: nat, fs: seq<(string, Json)>, k: string)
    requires i < |DotenvServices(services)|
    requires DotEnv.IsEol(eol) && DotEnv.Writable(fs)
    requires DotenvServices(services)[i].dotenv == Some(JObject(fs))
    ensures
      var w := EnvFiles(services, files, eol);
      var before := FileAt(Written(files, w[..i]), w[i].0);
      var read := DotEnv.ParseEnv(w[i].1);
      && (HasKey(fs, k) ==> Get(read, k) == Get(fs, k))
      && (!HasKey(fs, k) ==> Get(read, k) == (if before.Some? then Get(DotEnv.ParseEnv(before.value), k) else None))
  {
    var w := EnvFiles(services, files, eol);
    EnvFileReadsBack(FileAt(Written(files, w[..i]), w[i].0), fs, eol, k);
  }

  // ---------------------------------------------------------------- scripts

  /** The two script lists `compile` collects. */
  datatype Phase = AfterSwitch | Start

  function Pick(s: Service, phase: Phase): Option<Json>
  {
    match phase
    case AfterSwitch => s.afterSwitch
    case Start => s.start
  }

  /** A service's scripts for a phase: the entry of `{name, scripts}` the script file lists. */
  datatype Group = Group(name: string, scripts: seq<Json>)

  /** `Object.values(map)` with the map defaulting to `{}` when `undefined`; `null` throws. */
  function ScriptValues(v: Option<Json>): (r: Result<seq<Json>, CompileError>)
    ensures r.Err? <==> v == Some(JNull)
    ensures v.None? ==> r == Ok([])
    ensures v.Some? && v.value.JObject? ==> r == Ok(Values(v.value.fields))
  {
    match v
    case None => Ok([])
    case Some(JNull) => Err(TypeError)
    case Some(JObject(fs)) => Ok(Values(fs))
    case Some(JArray(items)) => Ok(items)
    case Some(JString(s)) => Ok(seq(|s|, i requires 0 <= i < |s| => JString([s[i]])))
    case Some(_) => Ok([])
  }

  /** The group of one service: none when its map is empty. */
  function GroupOf(s: Service, phase: Phase): (r: Result<seq<Group>, CompileError>)
    ensures r.Err? <==> Pick(s, phase) == Some(JNull)
    ensures r.Ok? ==> |r.value| <= 1
    ensures r.Ok? && |r.value| == 1 ==> r.value[0].name == s.name && |r.value[0].scripts| > 0
    ensures ScriptValues(Pick(s, phase)) == Ok([]) ==> r == Ok([])
    ensures ScriptValues(Pick(s, phase)).Ok? && |ScriptValues(Pick(s, phase)).value| > 0 ==>
      r == Ok([Group(s.name, ScriptValues(Pick(s, phase)).value)])
  {
    match ScriptValues(Pick(s, phase))
    case Err(e) => Err(e)
    case Ok(scripts) => if |scripts| == 0 then Ok([]) else Ok([Group(s.name, scripts)])
  }

  /** The groups of a phase, one per service with a non-empty map, in service order. */
  function ScriptGroups(services: seq<Service>, phase: Phase): (r: Result<seq<Group>, CompileError>)
    ensures r.Err? <==> exists i :: 0 <= i < |services| && Pick(services[i], phase) == Some(JNull)
    ensures r.Ok? ==> |r.value| <= |services|
    ensures r.Ok? ==> forall i :: 0 <= i < |r.value| ==> |r.value[i].scripts| > 0
    decreases |services|
  {
    if |services| == 0 then Ok([])
    else
      var r := Then(GroupOf(services[0], phase), ScriptGroups(services[1..], phase));
      assert r.Err? <==> exists i :: 0 <= i < |services| && Pick(services[i], phase) == Some(JNull) by {
        if r.Err? && Pick(services[0], phase) != Some(JNull) {
          var j :| 0 <= j < |services[1..]| && Pick(services[1..][j], phase) == Some(JNull);
          assert services[j + 1] == services[1..][j];
        }
        if exists i :: 0 <= i < |services| && Pick(services[i], phase) == Some(JNull) {
          var i :| 0 <= i < |services| && Pick(services[i], phase) == Some(JNull);
          if i > 0 { assert services[1..][i - 1] == services[i]; }
        }
      }
      r
  }

  /** The groups of consecutive services are the groups of each part, in order. */
  lemma {:induction false} ScriptGroupsAppend(a: seq<Service>, b: seq<Service>, phase: Phase)
    ensures ScriptGroups(a + b, phase) == Then(ScriptGroups(a, phase), ScriptGroups(b, phase))
    decreases |a|
  {
    if |a| == 0 {
      assert a + b == b;
      if ScriptGroups(b, phase).Ok? {
        assert [] + ScriptGroups(b, phase).value == ScriptGroups(b, phase).value;
      }
    } else {
      assert (a + b)[0] == a[0] && (a + b)[1..] == a[1..] + b;
      ScriptGroupsAppend(a[1..], b, phase);
      ThenAssoc(GroupOf(a[0], phase), ScriptGroups(a[1..], phase), ScriptGroups(b, phase));
    }
  }

  /** A service whose map has no values adds no group. */
  lemma SkipsEmpty(s: Service, rest: seq<Service>, phase: Phase)
    requires ScriptValues(Pick(s, phase)) == Ok([])
    ensures ScriptGroups([s] + rest, phase) == ScriptGroups(rest, phase)
  {
    assert ([s] + rest)[0] == s && ([s] + rest)[1..] == rest;
    if ScriptGroups(rest, phase).Ok? {
      assert [] + ScriptGroups(rest, phase).value == ScriptGroups(rest, phase).value;
    }
  }

  /** A service whose map has values adds its group, with those values, ahead of the
      groups of the services after it. */
  lemma KeepsNonEmpty(s: Service, rest: seq<Service>, phase: Phase, vs: seq<Json>)
    requires ScriptValues(Pick(s, phase)) == Ok(vs) && |vs| > 0
    ensures ScriptGroups([s] + rest, phase) == Then(Ok([Group(s.name, vs)]), ScriptGroups(rest, phase))
  {
    assert ([s] + rest)[0] == s && ([s] + rest)[1..] == rest;
  }

  // ---------------------------------------------------------------- proxy routes

  /** `${protocol}://${dockerhost}:${port}`, the protocol defaulting to `http` when unset. */
  function ProxyUrl(proxy: Obj<Json>, host: string): string
  {
    var protocol := match Get(proxy, "protocol") case None => "http" case Some(p) => TemplateText(p);
    protocol + "://" + host + ":" + TemplateOpt(Get(proxy, "port"))
  }

  /** The routes one proxy entry declares: each of its `paths` to its URL.  An entry that
      is not an object with an array of paths throws. */
  function ProxyRoutes(proxy: Json, host: string): (r: Result<seq<(string, Json)>, CompileError>)
    ensures r.Ok? <==> proxy.JObject? && Get(proxy.fields, "paths").Some? && Get(proxy.fields, "paths").value.JArray?
    ensures r.Ok? ==> |r.value| == |Get(proxy.fields, "paths").value.items|
    ensures r.Ok? ==> forall i :: 0 <= i < |r.value| ==> r.value[i].1 == JString(ProxyUrl(proxy.fields, host))
  {
    if proxy.JObject? then
      var p := Get(proxy.fields, "paths");
      if p.Some? && p.value.JArray? then
        var paths := p.value.items;
        Ok(seq(|paths|, i requires 0 <= i < |paths| => (TemplateText(paths[i]), JString(ProxyUrl(proxy.fields, host)))))
      else Err(TypeError)
    else Err(TypeError)
  }

  /** The routes of a list of proxy entries, in order; the list throws as soon as one
      entry does. */
  function ProxiesRoutes(proxies: seq<Json>, host: string): (r: Result<seq<(string, Json)>, CompileError>)
    ensures r.Err? <==> exists j :: 0 <= j < |proxies| && ProxyRoutes(proxies[j], host).Err?
    ensures r.Err? ==> r.error == TypeError
    ensures r.Ok? ==> forall i :: 0 <= i < |r.value| ==> r.value[i].1.JString?
    decreases |proxies|
  {
    if |proxies| == 0 then Ok([])
    else
      var rest := ProxiesRoutes(proxies[1..], host);
      assert rest.Err? ==> exists j :: 0 <= j < |proxies| && ProxyRoutes(proxies[j], host).Err? by {
        if rest.Err? {
          var j :| 0 <= j < |proxies[1..]| && ProxyRoutes(proxies[1..][j], host).Err?;
          assert proxies[j + 1] == proxies[1..][j];
        }
      }
      assert (exists j :: 0 <= j < |proxies| && ProxyRoutes(proxies[j], host).Err?) ==>
        ProxyRoutes(proxies[0], host).Err? || rest.Err? by {
        if exists j :: 0 <= j < |proxies| && ProxyRoutes(proxies[j], host).Err? {
          var j :| 0 <= j < |proxies| && ProxyRoutes(proxies[j], host).Err?;
          if j > 0 {
            assert proxies[1..][j - 1] == proxies[j];
          }
        }
      }
      Then(ProxyRoutes(proxies[0], host), rest)
  }

  /** `services[svc].proxy` of the configuration. */
  function ProxiesOf(config: Json, svc: Json): Option<Json>
  {
    GetPath(config, ["services", TemplateText(svc), "proxy"])
  }

  /** The routes one current service declares: none when its `proxy` is falsy, those of its
      entries when it is an array, and a throw for any other truthy value. */
  function ServiceProxyRoutes(config: Json, svc: Json, host: string): (r: Result<seq<(string, Json)>, CompileError>)
    ensures !TruthyOpt(ProxiesOf(config, svc)) ==> r == Ok([])
    ensures
      var p := ProxiesOf(config, svc);
      r.Err? <==>
        && TruthyOpt(p)
        && (!p.value.JArray? || exists j :: 0 <= j < |p.value.items| && ProxyRoutes(p.value.items[j], host).Err?)
    ensures r.Err? ==> r.error == TypeError
    ensures r.Ok? ==> forall i :: 0 <= i < |r.value| ==> r.value[i].1.JString?
  {
    var p := ProxiesOf(config, svc);
    if !TruthyOpt(p) then Ok([])
    else if p.value.JArray? then ProxiesRoutes(p.value.items, host)
    else Err(TypeError)
  }

  /** The routes of the current services, in order; collecting throws exactly when some
      service's `proxy` does. */
  function ServiceRoutes(config: Json, svcs: seq<Json>, host: string): (r: Result<seq<(string, Json)>, CompileError>)
    ensures r.Err? <==> exists i :: 0 <= i < |svcs| && ServiceProxyRoutes(config, svcs[i], host).Err?
    ensures r.Err? ==> r.error == TypeError
    ensures r.Ok? ==> forall i :: 0 <= i < |r.value| ==> r.value[i].1.JString?
    decreases |svcs|
  {
    if |svcs| == 0 then Ok([])
    else
      var rest := ServiceRoutes(config, svcs[1..], host);
      assert rest.Err? ==> exists i :: 0 <= i < |svcs| && ServiceProxyRoutes(config, svcs[i], host).Err? by {
        if rest.Err? {
          var i :| 0 <= i < |svcs[1..]| && ServiceProxyRoutes(config, svcs[1..][i], host).Err?;
          assert svcs[i + 1] == svcs[1..][i];
        }
      }
      assert (exists i :: 0 <= i < |svcs| && ServiceProxyRoutes(config, svcs[i], host).Err?) ==>
        ServiceProxyRoutes(config, svcs[0], host).Err? || rest.Err? by {
        if exists i :: 0 <= i < |svcs| && ServiceProxyRoutes(config, svcs[i], host).Err? {
          var i :| 0 <= i < |svcs| && ServiceProxyRoutes(config, svcs[i], host).Err?;
          if i > 0 {
            assert svcs[1..][i - 1] == svcs[i];
          }
        }
      }
      Then(ServiceProxyRoutes(config, svcs[0], host), rest)
  }

  /** Every route pair, in the order the routes are assigned.  `current.services` defaults
      to `[]` only when it is missing: `null` or any other non-array throws. */
  function RoutePairs(config: Json, host: string): (r: Result<seq<(string, Json)>, CompileError>)
    ensures GetPath(config, ["current", "services"]).None? ==> r == Ok([])
    ensures
      var cs := GetPath(config, ["current", "services"]);
      r.Err? <==> cs.Some? && (!cs.value.JArray? || ServiceRoutes(config, cs.value.items, host).Err?)
    ensures r.Err? ==> r.error == TypeError
    ensures r.Ok? ==> forall i :: 0 <= i < |r.value| ==> r.value[i].1.JString?
  {
    match GetPath(config, ["current", "services"])
    case None => Ok([])
    case Some(JArray(svcs)) => ServiceRoutes(config, svcs, host)
    case Some(_) => Err(TypeError)
  }

  /** The routing table: the pairs assigned in order onto `{}`. */
  function Routes(pairs: seq<(string, Json)>): (r: Obj<Json>)
    ensures forall k :: Get(r, k) == LastWith(pairs, k)
  {
    FromPairs(pairs)
  }

  /** Every path of a proxy entry routes to that entry's URL, unless a later entry of the
      same list claims the path again. */
  lemma ProxyPathRoutes(proxy: Json, host: string, j: nat)
    requires ProxyRoutes(proxy, host).Ok? && j < |Get(proxy.fields, "paths").value.items|
    ensures
      var path := TemplateText(Get(proxy.fields, "paths").value.items[j]);
      Get(Routes(ProxyRoutes(proxy, host).value), path) == Some(JString(ProxyUrl(proxy.fields, host)))
  {
    var ps := ProxyRoutes(proxy, host).value;
    var path := TemplateText(Get(proxy.fields, "paths").value.items[j]);
    assert ps[j].0 == path;
    LastWithFound(ps, j, path);
  }

  /** When a name is assigned at least once, its last value is one of the assigned values. */
  lemma {:induction false} LastWithFound<V>(ps: seq<(string, V)>, j: nat, k: string)
    requires j < |ps| && ps[j].0 == k
    ensures LastWith(ps, k).Some?
    ensures exists i :: j <= i < |ps| && ps[i] == (k, LastWith(ps, k).value)
    decreases |ps|
  {
    if ps[|ps| - 1].0 != k {
      LastWithFound(ps[..|ps| - 1], j, k);
      var i :| j <= i < |ps| - 1 && ps[..|ps| - 1][i] == (k, LastWith(ps, k).value);
      assert ps[i] == ps[..|ps| - 1][i];
    } else {
      assert ps[|ps| - 1] == (k, LastWith(ps, k).value);
    }
  }

  /** A later service that routes a path overrides an earlier one. */
  lemma LaterServiceWins(config: Json, a: seq<Json>, b: seq<Json>, host: string, k: string)
    requires ServiceRoutes(config, a, host).Ok? && ServiceRoutes(config, b, host).Ok?
    requires LastWith(ServiceRoutes(config, b, host).value, k).Some?
    ensures ServiceRoutes(config, a + b, host).Ok?
    ensures Get(Routes(ServiceRoutes(config, a + b, host).value), k) == LastWith(ServiceRoutes(config, b, host).value, k)
  {
    ServiceRoutesAppend(config, a, b, host);
    LastWithAppend(ServiceRoutes(config, a, host).value, ServiceRoutes(config, b, host).value, k);
  }

  lemma {:induction false} ServiceRoutesAppend(config: Json, a: seq<Json>, b: seq<Json>, host: string)
    ensures ServiceRoutes(config, a + b, host) == Then(ServiceRoutes(config, a, host), ServiceRoutes(config, b, host))
    decreases |a|
  {
    if |a| == 0 {
      assert a + b == b;
      if ServiceRoutes(config, b, host).Ok? {
        assert [] + ServiceRoutes(config, b, host).value == ServiceRoutes(config, b, host).value;
      }
    } else {
      assert (a + b)[0] == a[0] && (a + b)[1..] == a[1..] + b;
      ServiceRoutesAppend(config, a[1..], b, host);
      ThenAssoc(ServiceProxyRoutes(config, a[0], host), ServiceRoutes(config, a[1..], host), ServiceRoutes(config, b, host));
    }
  }

  // ---------------------------------------------------------------- ssl and ports

  /** `resolve(get(config, 'cwd') || '.', name)`. `path.resolve` works through its arguments
      from the last, stops at the first absolute one, and throws on any argument it reaches
      that is not a string: an absolute name never looks at `cwd`. */
  function ConfigPath(config: Json, processCwd: string, name: Json): (r: Result<string, CompileError>)
    ensures r.Ok? <==>
      && name.JString?
      && (Paths.IsAbsolute(name.s) || !TruthyOpt(GetPath(config, ["cwd"])) || GetPath(config, ["cwd"]).value.JString?)
    ensures name.JString? && Paths.IsAbsolute(name.s) ==> r == Ok(Paths.Normalize(name.s))
    ensures name.JString? && (!TruthyOpt(GetPath(config, ["cwd"])) || GetPath(config, ["cwd"]).value.JString?) ==>
      var cwd := GetPath(config, ["cwd"]);
      r == Ok(Paths.Resolve(Paths.Resolve(processCwd, if TruthyOpt(cwd) then cwd.value.s else "."), name.s))
  {
    var cwd := GetPath(config, ["cwd"]);
    if !name.JString? then Err(TypeError)
    else if Paths.IsAbsolute(name.s) then Ok(Paths.Resolve(processCwd, name.s))
    else if TruthyOpt(cwd) && !cwd.value.JString? then Err(TypeError)
    else
      var base := if TruthyOpt(cwd) then cwd.value.s else ".";
      Ok(Paths.Resolve(Paths.Resolve(processCwd, base), name.s))
  }

  /** A certificate named by an absolute path is read from that path whatever `cwd` holds,
      even a value `path.resolve` would reject. */
  lemma AbsoluteNameIgnoresCwd(processCwd: string, cwd: Json, name: string)
    requires Paths.IsAbsolute(name)
    ensures ConfigPath(JObject([("cwd", cwd)]), processCwd, JString(name)) == Ok(Paths.Normalize(name))
  {
  }

  /** The properties of `proxy.ssl`, none when it is not an object. */
  function SslOf(proxy: Obj<Json>): Obj<Json>
  {
    var ssl := Get(proxy, "ssl");
    if ssl.Some? && ssl.value.JObject? then ssl.value.fields else []
  }

  /** `proxy.ssl[field] = contents`, creating `proxy.ssl` when it is falsy. */
  function SetSsl(proxy: Obj<Json>, field: string, contents: string): (r: Obj<Json>)
    ensures GetPath(JObject(r), ["ssl", field]) == Some(JString(contents))
  {
    var ssl := SslOf(proxy);
    var r := Put(proxy, "ssl", JObject(Put(ssl, field, JString(contents))));
    assert GetPath(JObject(r), ["ssl", field]) == GetPath(JObject(Put(ssl, field, JString(contents))), [field]) by {
      assert ["ssl", field][1..] == [field];
    }
    assert [field][1..] == [];
    r
  }

  /** Whether `proxy.ssl[field]` can be loaded: it is falsy, or it names a file that
      resolves and exists. */
  predicate SslLoads(config: Json, files: Files, processCwd: string, field: string)
  {
    !TruthyOpt(GetPath(config, ["proxy", "ssl", field]))
    || (SslPath(config, processCwd, field).Ok? && SslPath(config, processCwd, field).value in files)
  }

  /** Replaces `proxy.ssl[field]` by the content of the file it names, when it is truthy. */
  function LoadSsl(config: Json, files: Files, processCwd: string, proxy: Obj<Json>, field: string): (r: Result<Obj<Json>, CompileError>)
    ensures r.Ok? <==> SslLoads(config, files, processCwd, field)
    ensures r.Err? && SslPath(config, processCwd, field).Ok? ==>
      r == Err(MissingFile(SslPath(config, processCwd, field).value))
    ensures !TruthyOpt(GetPath(config, ["proxy", "ssl", field])) ==> r == Ok(proxy)
    ensures r.Ok? && TruthyOpt(GetPath(config, ["proxy", "ssl", field])) ==>
      var path := SslPath(config, processCwd, field);
      && path.Ok? && path.value in files
      && GetPath(JObject(r.value), ["ssl", field]) == Some(JString(files[path.value]))
  {
    if !TruthyOpt(GetPath(config, ["proxy", "ssl", field])) then Ok(proxy)
    else match SslPath(config, processCwd, field)
      case Err(e) => Err(e)
      case Ok(path) =>
        if path in files then Ok(SetSsl(proxy, field, files[path])) else Err(MissingFile(path))
  }

  /** The file `proxy.ssl[field]` names, resolved against the project directory. */
  function SslPath(config: Json, processCwd: string, field: string): Result<string, CompileError>
    requires TruthyOpt(GetPath(config, ["proxy", "ssl", field]))
  {
    ConfigPath(config, processCwd, GetPath(config, ["proxy", "ssl", field]).value)
  }

  /** `get(config, 'proxy') || {}`. */
  function ProxyOf(config: Json): Obj<Json>
  {
    var proxy := GetPath(config, ["proxy"]);
    if proxy.Some? && proxy.value.JObject? then proxy.value.fields else []
  }

  /** After loading, `proxy.ssl[field]` holds the content of the file the configuration
      names, when it names one. */
  predicate Loaded(config: Json, files: Files, processCwd: string, proxy: Obj<Json>, field: string)
    requires SslLoads(config, files, processCwd, field)
  {
    TruthyOpt(GetPath(config, ["proxy", "ssl", field])) ==>
      GetPath(JObject(proxy), ["ssl", field]) == Some(JString(files[SslPath(config, processCwd, field).value]))
  }

  /** The proxy settings with the ssl key, then the certificate, replaced by file contents. */
  function ProxySettings(config: Json, files: Files, processCwd: string): (r: Result<Obj<Json>, CompileError>)
    ensures r.Ok? <==> SslLoads(config, files, processCwd, "key") && SslLoads(config, files, processCwd, "cert")
    ensures !SslLoads(config, files, processCwd, "key") ==> r == LoadSsl(config, files, processCwd, ProxyOf(config), "key")
    ensures r.Ok? ==> Loaded(config, files, processCwd, r.value, "key") && Loaded(config, files, processCwd, r.value, "cert")
    ensures !TruthyOpt(GetPath(config, ["proxy", "ssl", "key"])) && !TruthyOpt(GetPath(config, ["proxy", "ssl", "cert"])) ==>
      r == Ok(ProxyOf(config))
  {
    var proxy := ProxyOf(config);
    match LoadSsl(config, files, processCwd, proxy, "key")
    case Err(e) => Err(e)
    case Ok(withKey) =>
      var r := LoadSsl(config, files, processCwd, withKey, "cert");
      assert r.Ok? ==> Loaded(config, files, processCwd, r.value, "key") by {
        if r.Ok? && TruthyOpt(GetPath(config, ["proxy", "ssl", "key"])) {
          CertKeepsKey(config, files, processCwd, withKey, files[SslPath(config, processCwd, "key").value]);
        }
      }
      r
  }

  /** Whether the settings, after loading, carry both a certificate and a key. */
  predicate HasSsl(proxy: Obj<Json>)
  {
    TruthyOpt(GetPath(JObject(proxy), ["ssl", "cert"])) && TruthyOpt(GetPath(JObject(proxy), ["ssl", "key"]))
  }

  /** `${port}:${port}`: the same port published on the host, the two halves equal. */
  function PortMapping(port: Json): (r: string)
    ensures var n := |TemplateText(port)|;
      && |r| == 2 * n + 1 && r[n] == ':'
      && r[..n] == r[n + 1..] == TemplateText(port)
  {
    TemplateText(port) + ":" + TemplateText(port)
  }

  /** The published ports: http always (80 when unset), https (443 when unset) only when
      the proxy has both a certificate and a key. */
  function Ports(httpPort: Option<Json>, httpsPort: Option<Json>, ssl: bool): (r: seq<string>)
    ensures |r| == if ssl then 2 else 1
    ensures r[0] == PortMapping(httpPort.GetOr(JNumber(80)))
    ensures ssl ==> r[1] == PortMapping(httpsPort.GetOr(JNumber(443)))
  {
    var http := [PortMapping(httpPort.GetOr(JNumber(80)))];
    if ssl then http + [PortMapping(httpsPort.GetOr(JNumber(443)))] else http
  }

  /** A numeric port is published on the same port: the mapping splits at `:` into two
      equal halves. */
  lemma NumericMapping(n: int)
    ensures Split(PortMapping(JNumber(n)), ':') == [IntToString(n), IntToString(n)]
  {
    var t := IntToString(n);
    assert ':' !in t by {
      if n < 0 {
        assert forall i :: 1 <= i < |t| ==> t[i] == t[1..][i - 1];
      }
    }
    assert PortMapping(JNumber(n)) == Join([t, t], [':']) by {
      assert [t, t][1..] == [t];
    }
    SplitJoin([t, t], ':');
  }

  /** The `devctl-proxy` compose service: the proxy image, always restarted, the given ports
      published, and the routes and settings in its environment. */
  function ProxyService(ports: seq<string>, routes: Obj<Json>, proxy: Obj<Json>): (r: Json)
    ensures GetPath(r, ["image"]) == Some(JString("splitmedialabs/devctl-proxy:latest"))
    ensures GetPath(r, ["restart"]) == Some(JString("always"))
    ensures
      var p := GetPath(r, ["ports"]);
      && p.Some? && p.value.JArray? && |p.value.items| == |ports|
      && forall i :: 0 <= i < |ports| ==> p.value.items[i] == JString(ports[i])
    ensures GetPath(r, ["environment", "DEVCTL_PROXY"]) == Some(JString(ProxyEnvironment(routes, proxy)))
  {
    ProxyServiceFields(ports, routes, proxy);
    JObject([
      ("image", JString("splitmedialabs/devctl-proxy:latest")),
      ("restart", JString("always")),
      ("ports", JArray(seq(|ports|, i requires 0 <= i < |ports| => JString(ports[i])))),
      ("environment", JObject([("DEVCTL_PROXY", JString(ProxyEnvironment(routes, proxy)))]))])
  }

  lemma ProxyServiceFields(ports: seq<string>, routes: Obj<Json>, proxy: Obj<Json>)
    ensures
      var fs := [
        ("image", JString("splitmedialabs/devctl-proxy:latest")),
        ("restart", JString("always")),
        ("ports", JArray(seq(|ports|, i requires 0 <= i < |ports| => JString(ports[i])))),
        ("environment", JObject([("DEVCTL_PROXY", JString(ProxyEnvironment(routes, proxy)))]))];
      && Get(fs, "image") == Some(fs[0].1)
      && Get(fs, "restart") == Some(fs[1].1)
      && Get(fs, "ports") == Some(fs[2].1)
      && Get(fs, "environment") == Some(fs[3].1)
  {
    var fs := [
      ("image", JString("splitmedialabs/devctl-proxy:latest")),
      ("restart", JString("always")),
      ("ports", JArray(seq(|ports|, i requires 0 <= i < |ports| => JString(ports[i])))),
      ("environment", JObject([("DEVCTL_PROXY", JString(ProxyEnvironment(routes, proxy)))]))];
    assert fs[0].0[0] == 'i' && fs[1].0[0] == 'r' && fs[2].0[0] == 'p' && fs[3].0[0] == 'e';
    IndexOfKeyIs(fs, "image", 0);
    IndexOfKeyIs(fs, "restart", 1);
    IndexOfKeyIs(fs, "ports", 2);
    IndexOfKeyIs(fs, "environment", 3);
  }

  /** `DEVCTL_PROXY`: the routes and the proxy settings as indented JSON, which parses back
      to them whenever they are values JavaScript can build. */
  function ProxyEnvironment(routes: Obj<Json>, proxy: Obj<Json>): (r: string)
    ensures WellFormed(JObject(routes)) && WellFormed(JObject(proxy)) ==>
      Parse(r) == Some(JObject([("routes", JObject(routes)), ("proxy", JObject(proxy))]))
  {
    var fs := [("routes", JObject(routes)), ("proxy", JObject(proxy))];
    assert WellFormed(JObject(routes)) && WellFormed(JObject(proxy)) ==> Parse(Pretty(JObject(fs))) == Some(JObject(fs)) by {
      if WellFormed(JObject(routes)) && WellFormed(JObject(proxy)) {
        assert WellFormed(JObject(fs)) by {
          assert "routes" != "proxy" by { assert "routes"[0] != "proxy"[0]; }
          assert fs[0] in fs && fs[1] in fs;
        }
        PrettyRoundTrip(JObject(fs));
      }
    }
    Pretty(JObject(fs))
  }

  /** The proxy reads its routing table and settings back from its environment. */
  lemma ProxyEnvironmentReadsBack(pairs: seq<(string, Json)>, proxy: Obj<Json>)
    requires forall i :: 0 <= i < |pairs| ==> pairs[i].1.JString?
    requires WellFormed(JObject(proxy))
    ensures Parse(ProxyEnvironment(Routes(pairs), proxy)) == Some(JObject([("routes", JObject(Routes(pairs))), ("proxy", JObject(proxy))]))
  {
    var routes := Routes(pairs);
    assert WellFormed(JObject(routes)) by {
      forall i | 0 <= i < |routes| ensures routes[i] in routes && WellFormed(routes[i].1) {
        assert routes[i] in pairs;
      }
    }
    var fs := [("routes", JObject(routes)), ("proxy", JObject(proxy))];
    assert WellFormed(JObject(fs)) by {
      assert "routes" != "proxy" by { assert "routes"[0] != "proxy"[0]; }
      assert fs[0] in fs && fs[1] in fs;
    }
    PrettyRoundTrip(JObject(fs));
  }

  // ---------------------------------------------------------------- the compose file

  /** `{services: compose}` unless the compose already has a truthy `services`. */
  function Wrap(compose: Obj<Json>): (r: Json)
    ensures r.JObject? && TruthyOpt(Get(r.fields, "services"))
    ensures TruthyOpt(Get(compose, "services")) ==> r == JObject(compose)
  {
    if TruthyOpt(Get(compose, "services")) then JObject(compose)
    else
      var fs := [("services", JObject(compose))];
      assert Get(fs, "services") == Some(JObject(compose)) by { IndexOfKeyIs(fs, "services", 0); }
      JObject(fs)
  }

  /** Wrapping is idempotent: a written compose file is left as it is. */
  lemma WrapIdempotent(compose: Obj<Json>)
    ensures Wrap(Wrap(compose).fields) == Wrap(compose)
  {
  }

  /** A compose without `services` keeps all its entries, now under `services`. */
  lemma WrapNests(compose: Obj<Json>, k: string)
    requires !TruthyOpt(Get(compose, "services"))
    ensures GetPath(Wrap(compose), ["services", k]) == Get(compose, k)
  {
    var fs := [("services", JObject(compose))];
    assert Get(fs, "services") == Some(JObject(compose)) by { IndexOfKeyIs(fs, "services", 0); }
    assert ["services", k][1..] == [k];
    assert [k][1..] == [];
    match Get(compose, k)
    case None =>
    case Some(v) =>
  }

  /** `current.dockerhost.address`, as the route URLs print it. */
  function ProxyHost(config: Json): string
  {
    TemplateOpt(GetPath(config, ["current", "dockerhost", "address"]))
  }

  /** The `devctl-proxy` service of an enabled proxy, or the error that computing its
      routes, then its settings, throws first.  Its environment carries the routing table
      and the loaded settings. */
  function ProxyServiceOf(config: Json, files: Files, processCwd: string): (r: Result<Json, CompileError>)
    ensures r.Ok? <==> RoutePairs(config, ProxyHost(config)).Ok? && ProxySettings(config, files, processCwd).Ok?
    ensures RoutePairs(config, ProxyHost(config)).Err? ==> r == Err(TypeError)
    ensures RoutePairs(config, ProxyHost(config)).Ok? && ProxySettings(config, files, processCwd).Err? ==>
      r == Err(ProxySettings(config, files, processCwd).error)
    ensures r.Ok? ==>
      GetPath(r.value, ["environment", "DEVCTL_PROXY"]) == Some(JString(ProxyEnvironment(
        Routes(RoutePairs(config, ProxyHost(config)).value), ProxySettings(config, files, processCwd).value)))
  {
    var host := ProxyHost(config);
    match RoutePairs(config, host)
    case Err(e) => Err(e)
    case Ok(pairs) =>
      match ProxySettings(config, files, processCwd)
      case Err(e) => Err(e)
      case Ok(proxy) =>
        var ports := Ports(GetPath(config, ["proxy", "httpPort"]), GetPath(config, ["proxy", "httpsPort"]), HasSsl(proxy));
        Ok(ProxyService(ports, Routes(pairs), proxy))
  }

  /** The compose file as the code builds it: the proxy service is added at the top level of
      the merged fragments, which are then wrapped. */
  function ComposeToWriteAsWritten(config: Json, merged: Obj<Json>, files: Files, processCwd: string): (r: Result<Json, CompileError>)
    ensures !TruthyOpt(GetPath(config, ["proxy", "enabled"])) ==> r == Ok(Wrap(merged))
    ensures TruthyOpt(GetPath(config, ["proxy", "enabled"])) ==>
      (r.Ok? <==> ProxyServiceOf(config, files, processCwd).Ok?)
    ensures r.Ok? ==> r.value.JObject? && TruthyOpt(Get(r.value.fields, "services"))
  {
    if !TruthyOpt(GetPath(config, ["proxy", "enabled"])) then Ok(Wrap(merged))
    else
      match ProxyServiceOf(config, files, processCwd)
      case Err(e) => Err(e)
      case Ok(svc) => Ok(Wrap(Put(merged, "devctl-proxy", svc)))
  }

  /** As built by the code, when the fragments already hold a truthy `services` the proxy
      lands beside it, at the top level of the compose file, and `services` stays as it
      was: the proxy is not one of the compose services. */
  lemma ProxyBesideServices(config: Json, merged: Obj<Json>, files: Files, processCwd: string)
    requires TruthyOpt(GetPath(config, ["proxy", "enabled"]))
    requires TruthyOpt(Get(merged, "services"))
    requires ComposeToWriteAsWritten(config, merged, files, processCwd).Ok?
    ensures
      var r := ComposeToWriteAsWritten(config, merged, files, processCwd).value;
      && r.JObject?
      && Get(r.fields, "devctl-proxy") == Some(ProxyServiceOf(config, files, processCwd).value)
      && Get(r.fields, "services") == Get(merged, "services")
  {
    var svc := ProxyServiceOf(config, files, processCwd).value;
    var withProxy := Put(merged, "devctl-proxy", svc);
    assert "services" != "devctl-proxy" by { assert "services"[0] != "devctl-proxy"[0]; }
    assert Get(withProxy, "services") == Get(merged, "services");
  }

  /** Adds `svc` as the service `devctl-proxy`: inside `services` when the fragments hold
      their services as an object, at the top level (to be wrapped) otherwise. */
  function WithProxy(merged: Obj<Json>, svc: Json): Obj<Json>
  {
    var services := Get(merged, "services");
    if services.Some? && services.value.JObject? then
      Put(merged, "services", JObject(Put(services.value.fields, "devctl-proxy", svc)))
    else Put(merged, "devctl-proxy", svc)
  }

  /** The compose file to write from the merged fragments: with the proxy service added to
      the compose services when the proxy is enabled, then wrapped. */
  function ComposeToWrite(config: Json, merged: Obj<Json>, files: Files, processCwd: string): (r: Result<Json, CompileError>)
    ensures !TruthyOpt(GetPath(config, ["proxy", "enabled"])) ==> r == Ok(Wrap(merged))
    ensures TruthyOpt(GetPath(config, ["proxy", "enabled"])) ==>
      (r.Ok? <==> ProxyServiceOf(config, files, processCwd).Ok?)
    ensures r.Ok? ==> r.value.JObject? && TruthyOpt(Get(r.value.fields, "services"))
  {
    if !TruthyOpt(GetPath(config, ["proxy", "enabled"])) then Ok(Wrap(merged))
    else
      match ProxyServiceOf(config, files, processCwd)
      case Err(e) => Err(e)
      case Ok(svc) => Ok(Wrap(WithProxy(merged, svc)))
  }

  /** With the proxy enabled, `devctl-proxy` is one of the written compose services, whether
      or not the fragments already hold `services`. */
  lemma ProxyServiceAdded(config: Json, merged: Obj<Json>, files: Files, processCwd: string)
    requires TruthyOpt(GetPath(config, ["proxy", "enabled"]))
    requires !TruthyOpt(Get(merged, "services")) || Get(merged, "services").value.JObject?
    requires ComposeToWrite(config, merged, files, processCwd).Ok?
    ensures GetPath(ComposeToWrite(config, merged, files, processCwd).value, ["services", "devctl-proxy"])
      == Some(ProxyServiceOf(config, files, processCwd).value)
  {
    WithProxyIsService(merged, ProxyServiceOf(config, files, processCwd).value);
  }

  /** Whether or not the fragments hold `services`, the added service is read back from
      `services` of the wrapped compose. */
  lemma WithProxyIsService(merged: Obj<Json>, svc: Json)
    requires !TruthyOpt(Get(merged, "services")) || Get(merged, "services").value.JObject?
    ensures GetPath(Wrap(WithProxy(merged, svc)), ["services", "devctl-proxy"]) == Some(svc)
  {
    var services := Get(merged, "services");
    if services.Some? && services.value.JObject? {
      ProxyInServices(merged, services.value.fields, svc);
    } else {
      ProxyNested(merged, svc);
    }
  }

  lemma ProxyInServices(merged: Obj<Json>, services: Obj<Json>, svc: Json)
    requires Get(merged, "services") == Some(JObject(services))
    ensures GetPath(Wrap(WithProxy(merged, svc)), ["services", "devctl-proxy"]) == Some(svc)
  {
    var inner := Put(services, "devctl-proxy", svc);
    var outer := Put(merged, "services", JObject(inner));
    assert WithProxy(merged, svc) == outer;
    assert Get(outer, "services") == Some(JObject(inner));
    assert Wrap(outer) == JObject(outer);
    GetTwo(outer, "services", "devctl-proxy", inner);
  }

  /** A two-step path reads the inner object's property. */
  lemma GetTwo(o: Obj<Json>, a: string, b: string, inner: Obj<Json>)
    requires Get(o, a) == Some(JObject(inner))
    ensures GetPath(JObject(o), [a, b]) == Get(inner, b)
  {
    assert [a, b][1..] == [b] && [b][1..] == [];
    match Get(inner, b)
    case None =>
    case Some(v) =>
  }

  lemma ProxyNested(merged: Obj<Json>, svc: Json)
    requires !TruthyOpt(Get(merged, "services"))
    ensures GetPath(Wrap(WithProxy(merged, svc)), ["services", "devctl-proxy"]) == Some(svc)
  {
    var withProxy := Put(merged, "devctl-proxy", svc);
    assert WithProxy(merged, svc) == withProxy;
    assert "services" != "devctl-proxy" by { assert "services"[0] != "devctl-proxy"[0]; }
    assert Get(withProxy, "services") == Get(merged, "services");
    WrapNests(withProxy, "devctl-proxy");
  }

  /** With the proxy enabled, a configured certificate and key give an https port exactly
      when both files have content: an empty file counts as no certificate. */
  lemma HttpsNeedsContents(config: Json, files: Files, processCwd: string)
    requires TruthyOpt(GetPath(config, ["proxy", "ssl", "key"])) && TruthyOpt(GetPath(config, ["proxy", "ssl", "cert"]))
    requires ProxySettings(config, files, processCwd).Ok?
    ensures SslPath(config, processCwd, "key").Ok? && SslPath(config, processCwd, "cert").Ok?
    ensures
      var proxy := ProxySettings(config, files, processCwd).value;
      var keyPath := SslPath(config, processCwd, "key").value;
      var certPath := SslPath(config, processCwd, "cert").value;
      && keyPath in files && certPath in files
      && (HasSsl(proxy) <==> (files[keyPath] != "" && files[certPath] != ""))
  {
    var withKey := LoadSsl(config, files, processCwd, ProxyOf(config), "key").value;
    var proxy := LoadSsl(config, files, processCwd, withKey, "cert").value;
    var keyPath := SslPath(config, processCwd, "key").value;
    var certPath := SslPath(config, processCwd, "cert").value;
    assert ProxySettings(config, files, processCwd) == Ok(proxy);
    assert GetPath(JObject(withKey), ["ssl", "key"]) == Some(JString(files[keyPath]));
    var cert := GetPath(JObject(proxy), ["ssl", "cert"]);
    var key := GetPath(JObject(proxy), ["ssl", "key"]);
    assert cert == Some(JString(files[certPath]));
    assert key == Some(JString(files[keyPath])) by {
      CertKeepsKey(config, files, processCwd, withKey, files[keyPath]);
    }
    HasSslOf(proxy, files[certPath], files[keyPath]);
  }

  lemma HasSslOf(proxy: Obj<Json>, cert: string, key: string)
    requires GetPath(JObject(proxy), ["ssl", "cert"]) == Some(JString(cert))
    requires GetPath(JObject(proxy), ["ssl", "key"]) == Some(JString(key))
    ensures HasSsl(proxy) <==> cert != "" && key != ""
  {
  }

  /** Loading the certificate leaves the key already loaded in place. */
  lemma CertKeepsKey(config: Json, files: Files, processCwd: string, withKey: Obj<Json>, key: string)
    requires GetPath(JObject(withKey), ["ssl", "key"]) == Some(JString(key))
    requires LoadSsl(config, files, processCwd, withKey, "cert").Ok?
    ensures GetPath(JObject(LoadSsl(config, files, processCwd, withKey, "cert").value), ["ssl", "key"]) == Some(JString(key))
  {
    if TruthyOpt(GetPath(config, ["proxy", "ssl", "cert"])) {
      var path := SslPath(config, processCwd, "cert").value;
      assert LoadSsl(config, files, processCwd, withKey, "cert").value == SetSsl(withKey, "cert", files[path]);
      assert "key" != "cert" by { assert "key"[0] != "cert"[0]; }
      SetSslKeeps(withKey, "cert", files[path], "key");
    }
  }

  /** Setting one field of `proxy.ssl` leaves the others as they were. */
  lemma SetSslKeeps(proxy: Obj<Json>, field: string, contents: string, other: string)
    requires other != field
    ensures GetPath(JObject(SetSsl(proxy, field, contents)), ["ssl", other]) == GetPath(JObject(proxy), ["ssl", other])
  {
    var ssl := SslOf(proxy);
    assert ["ssl", other][1..] == [other] && [other][1..] == [];
    assert Get(SetSsl(proxy, field, contents), "ssl") == Some(JObject(Put(ssl, field, JString(contents))));
  }

  // ---------------------------------------------------------------- the whole command

  /** What `compile` writes, in order: the `.env` files, then the script lists (unless
      collecting them throws), then the compose file (unless anything before throws). */
  datatype Compiled = Compiled(
    envFiles: seq<(string, string)>,
    scripts: Result<(seq<Group>, seq<Group>), CompileError>,
    compose: Result<Json, CompileError>)

  /** `compile`, given the resolved services, the deep merge, the file snapshot, the
      process's working directory and the platform's line break. */
  function Run(config: Json, services: seq<Service>, merge: (Obj<Json>, Json) -> Obj<Json>,
               files: Files, processCwd: string, eol: string): (r: Compiled)
    ensures r.envFiles == EnvFiles(services, files, eol)
    ensures PathsOf(r.envFiles) == EnvPaths(DotenvServices(services))
    ensures r.scripts.Ok? <==> ScriptGroups(services, AfterSwitch).Ok? && ScriptGroups(services, Start).Ok?
    ensures r.scripts.Ok? ==> r.scripts.value == (ScriptGroups(services, AfterSwitch).value, ScriptGroups(services, Start).value)
    ensures ScriptGroups(services, AfterSwitch).Err? ==> r.scripts == Err(ScriptGroups(services, AfterSwitch).error)
    ensures r.scripts.Err? ==> r.compose == Err(r.scripts.error)
    ensures r.scripts.Ok? ==>
      r.compose == ComposeToWrite(config, ComposeOf(services, merge, []), Written(files, r.envFiles), processCwd)
    ensures r.scripts.Ok? ==> r.compose.Ok? || TruthyOpt(GetPath(config, ["proxy", "enabled"]))
  {
    var envFiles := EnvFiles(services, files, eol);
    var scripts: Result<(seq<Group>, seq<Group>), CompileError> :=
      match ScriptGroups(services, AfterSwitch)
      case Err(e) => Err(e)
      case Ok(after) =>
        match ScriptGroups(services, Start)
        case Err(e) => Err(e)
        case Ok(start) => Ok((after, start));
    var compose :=
      if scripts.Err? then Err(scripts.error)
      else ComposeToWrite(config, ComposeOf(services, merge, []), Written(files, envFiles), processCwd);
    Compiled(envFiles, scripts, compose)
  }

  /** With the proxy enabled and every step succeeding, the compose file `compile` writes
      holds the proxy service among its services, computed against the files as they are
      after the `.env` writes. */
  lemma RunWritesProxy(config: Json, services: seq<Service>, merge: (Obj<Json>, Json) -> Obj<Json>,
                       files: Files, processCwd: string, eol: string)
    requires TruthyOpt(GetPath(config, ["proxy", "enabled"]))
    requires
      var merged := ComposeOf(services, merge, []);
      !TruthyOpt(Get(merged, "services")) || Get(merged, "services").value.JObject?
    requires Run(config, services, merge, files, processCwd, eol).compose.Ok?
    ensures
      var r := Run(config, services, merge, files, processCwd, eol);
      var written := Written(files, r.envFiles);
      && ProxyServiceOf(config, written, processCwd).Ok?
      && GetPath(r.compose.value, ["services", "devctl-proxy"]) == Some(ProxyServiceOf(config, written, processCwd).value)
  {
    var r := Run(config, services, merge, files, processCwd, eol);
    ProxyServiceAdded(config, ComposeOf(services, merge, []), Written(files, r.envFiles), processCwd);
  }

  /** With the proxy disabled and the scripts collected, the compose file is the merged
      fragments, wrapped. */
  lemma RunWithoutProxy(config: Json, services: seq<Service>, merge: (Obj<Json>, Json) -> Obj<Json>,
                        files: Files, processCwd: string, eol: string)
    requires !TruthyOpt(GetPath(config, ["proxy", "enabled"]))
    requires Run(config, services, merge, files, processCwd, eol).scripts.Ok?
    ensures Run(config, services, merge, files, processCwd, eol).compose == Ok(Wrap(ComposeOf(services, merge, [])))
  {
  }
}
