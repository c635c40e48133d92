/**
 The `command_not_found` hook: when the CLI is given an id that is none of its own
 commands, the id is looked up among the project's custom commands and its handler is
 run, as a program, as a JavaScript/TypeScript module, or as a shell script.

 The decision is a pure function of the command id, the raw argv, the project
 configuration, the process working directory and a snapshot of the filesystem.  What the
 outside world answers back (the child's close code, the outcome of loading a module and of
 calling its handler) is given to `Perform` as data.
 */
module Dispatcher {

  import opened Wrappers
  import opened Strings
  import opened Paths

  // ---------------------------------------------------------------- configuration

  datatype CommandEntry = CommandEntry(name: string, description: Option<string>, handler: string)

  /** The part of the project configuration the hook reads; the whole value is also
      handed to module handlers. */
  datatype Project = Project(commands: Option<seq<CommandEntry>>, cwd: Option<string>)

  /** What `access` and `stat` report for a path. */
  datatype Node = Directory | File(executable: bool)

  /** A snapshot of the filesystem, keyed by normalized absolute paths. */
  type FileSystem = map<string, Node>

  function Lookup(fs: FileSystem, p: string): Option<Node>
  {
    var key := Normalize(p);
    if key in fs then Some(fs[key]) else None
  }

  /** `access(p)` succeeds. */
  predicate FileExists(fs: FileSystem, p: string)
  {
    Lookup(fs, p).Some?
  }

  /** `access(p, X_OK)` succeeds: an executable file, or a directory (which is searchable). */
  predicate IsExecutable(fs: FileSystem, p: string)
  {
    Lookup(fs, p) == Some(Directory) || Lookup(fs, p) == Some(File(true))
  }

  // ---------------------------------------------------------------- failures

  datatype Failure =
    | CommandNotFound
    | UnknownCommand(id: string)
    | MissingIndexFile(id: string)
    | HandlerNotFound(id: string, path: string)
    | MustExportFunction(id: string)
    | ExitedWith(id: string, code: Option<int>)
    | Thrown(message: string)

  /** The text of the error the hook raises. */
  function Message(f: Failure): string
  {
    match f
    case CommandNotFound => "command not found"
    case UnknownCommand(id) => "command " + id + " not found"
    case MissingIndexFile(id) => "Custom command \"" + id + "\" handler directory missing index file"
    case HandlerNotFound(id, path) => "Custom command \"" + id + "\" handler not found at " + path
    case MustExportFunction(id) => "Custom command \"" + id + "\" handler must export a function"
    case ExitedWith(id, code) =>
      "Custom command \"" + id + "\" exited with code "
      + (match code case Some(c) => IntText(c) case None => "unknown")
    case Thrown(message) => message
  }

  function IntText(n: int): string
  {
    if n < 0 then "-" + NatText(-n) else NatText(n)
  }

  function NatText(n: nat): string
    decreases n
  {
    var d := ['0' + (n % 10) as char];
    if n < 10 then d else NatText(n / 10) + d
  }

  /** The process exit status the failure carries, when it names one: a child's close code,
      or 1 when the child closed without one.  The other failures exit with the CLI
      framework's default status, which is not part of this model. */
  function ExitStatus(f: Failure): (r: Option<int>)
    ensures r.Some? <==> f.ExitedWith?
    ensures f.ExitedWith? && f.code.Some? ==> r == f.code
    ensures f.ExitedWith? ==> (r == Some(0) <==> f.code == Some(0))
  {
    match f
    case ExitedWith(_, code) => Some(code.GetOr(1))
    case _ => None
  }

  // ---------------------------------------------------------------- resolving the handler

  const IndexCandidates: seq<string> := ["index.js", "index.cjs", "index.mjs", "index.ts", "index.cts", "index.mts"]
  const ModuleExtensions: seq<string> := [".js", ".cjs", ".mjs", ".ts", ".cts", ".mts"]
  const TypescriptExtensions: seq<string> := [".ts", ".cts", ".mts"]

  datatype Resolution = Resolution(path: string, found: bool, isModule: bool)

  /** Position of the first `true`. */
  function FirstTrue(bs: seq<bool>): (r: Option<nat>)
    ensures r.Some? ==> r.value < |bs| && bs[r.value]
    ensures r.Some? ==> forall j :: 0 <= j < r.value ==> !bs[j]
    ensures r.None? <==> forall j :: 0 <= j < |bs| ==> !bs[j]
  {
    if |bs| == 0 then None
    else if bs[0] then Some(0)
    else match FirstTrue(bs[1..])
      case None => None
      case Some(i) => Some(i + 1)
  }

  /** Which index files exist inside `dir`, in candidate order. */
  function IndexPresence(fs: FileSystem, dir: string): (r: seq<bool>)
    ensures |r| == |IndexCandidates|
    ensures forall j :: 0 <= j < |r| ==> r[j] == FileExists(fs, JoinPath(dir, IndexCandidates[j]))
  {
    seq(|IndexCandidates|, j requires 0 <= j < |IndexCandidates| => FileExists(fs, JoinPath(dir, IndexCandidates[j])))
  }

  /** An absolute handler is taken as written; a relative one is resolved against `cwd`. */
  function HandlerPath(handler: string, cwd: string): (r: string)
    ensures IsAbsolute(handler) ==> r == handler
    ensures !IsAbsolute(handler) ==> r == Resolve(cwd, handler)
  {
    if IsAbsolute(handler) then handler else Resolve(cwd, handler)
  }

  /** Where a handler lives, whether it exists, and whether it is loaded as a module. */
  function ResolveHandlerFile(fs: FileSystem, handler: string, cwd: string, id: string): (r: Result<Resolution, Failure>)
    ensures var resolved := HandlerPath(handler, cwd);
      && (r.Err? <==>
            (Lookup(fs, resolved) == Some(Directory)
             && forall j :: 0 <= j < |IndexCandidates| ==> !FileExists(fs, JoinPath(resolved, IndexCandidates[j]))))
      && (r.Err? ==> r.error == MissingIndexFile(id))
      && (!FileExists(fs, resolved) ==> r == Ok(Resolution(resolved, false, false)))
      && (Lookup(fs, resolved).Some? && Lookup(fs, resolved).value.File? ==>
            r == Ok(Resolution(resolved, true, ExtName(resolved) in ModuleExtensions)))
      && (r.Ok? && Lookup(fs, resolved) == Some(Directory) ==>
            r.value.found && r.value.isModule && FileExists(fs, r.value.path)
            && exists i :: 0 <= i < |IndexCandidates| && r.value.path == JoinPath(resolved, IndexCandidates[i])
                      && forall j :: 0 <= j < i ==> !FileExists(fs, JoinPath(resolved, IndexCandidates[j])))
  {
    var resolved := HandlerPath(handler, cwd);
    match Lookup(fs, resolved)
    case None => Ok(Resolution(resolved, false, false))
    case Some(Directory) =>
      (match FirstTrue(IndexPresence(fs, resolved))
       case Some(i) => Ok(Resolution(JoinPath(resolved, IndexCandidates[i]), true, true))
       case None => Err(MissingIndexFile(id)))
    case Some(File(_)) => Ok(Resolution(resolved, true, ExtName(resolved) in ModuleExtensions))
  }

  // ---------------------------------------------------------------- deciding what to run

  /** The payload handed to a module handler. */
  datatype Payload = Payload(args: seq<string>, argv: seq<string>, command: string, cwd: string,
                             config: Project, project: Project)

  datatype Action =
    | SpawnByName(command: string, args: seq<string>, cwd: string)
    | SpawnPath(path: string, args: seq<string>, cwd: string)
    | RunViaSh(path: string, args: seq<string>, cwd: string)
    | InvokeModule(path: string, payload: Payload)

  /** The options oclif passes to the hook. */
  datatype HookOptions = HookOptions(id: Option<string>, argv: Option<seq<string>>)

  /** The first entry named exactly `id`. */
  function FindCommand(commands: seq<CommandEntry>, id: string): (r: Option<nat>)
    ensures r.Some? ==> r.value < |commands| && commands[r.value].name == id
    ensures r.Some? ==> forall j :: 0 <= j < r.value ==> commands[j].name != id
    ensures r.None? <==> forall j :: 0 <= j < |commands| ==> commands[j].name != id
  {
    if |commands| == 0 then None
    else if commands[0].name == id then Some(0)
    else match FindCommand(commands[1..], id)
      case None => None
      case Some(i) => Some(i + 1)
  }

  /** The arguments for the handler: the raw argv without a leading copy of the id. */
  function HandlerArgs(rawArgs: seq<string>, id: string): (r: seq<string>)
    ensures |rawArgs| > 0 && rawArgs[0] == id ==> [id] + r == rawArgs
    ensures !(|rawArgs| > 0 && rawArgs[0] == id) ==> r == rawArgs
  {
    if |rawArgs| > 0 && rawArgs[0] == id then rawArgs[1..] else rawArgs
  }

  /** A handler written as a path rather than a program name. */
  predicate LooksLikePath(handler: string)
  {
    '/' in handler || StartsWith(handler, ".")
  }

  function Commands(project: Option<Project>): seq<CommandEntry>
  {
    if project.Some? && project.value.commands.Some? then project.value.commands.value else []
  }

  /** The project's directory, or the process's when the project names none. */
  function ProjectCwd(project: Option<Project>, processCwd: string): string
  {
    if project.Some? && project.value.cwd.Some? then project.value.cwd.value else processCwd
  }

  /** What the hook does for `opts`: one action, or the failure it raises first. */
  function Decide(opts: HookOptions, project: Option<Project>, processCwd: string, fs: FileSystem): (r: Result<Action, Failure>)
    ensures opts.id.GetOr("") == "" ==> r == Err(CommandNotFound)
    ensures opts.id.GetOr("") != "" && FindCommand(Commands(project), opts.id.value).None? ==>
      r == Err(UnknownCommand(opts.id.value))
    ensures Selects(opts, project) ==>
      r == Classify(fs, Selected(opts, project), opts.id.value, opts.argv.GetOr([]),
                    ProjectCwd(project, processCwd), project.value)
  {
    var id := opts.id.GetOr("");
    if id == "" then Err(CommandNotFound)
    else
      var commands := Commands(project);
      match FindCommand(commands, id)
      case None => Err(UnknownCommand(id))
      case Some(i) =>
        Classify(fs, commands[i], id, opts.argv.GetOr([]), ProjectCwd(project, processCwd), project.value)
  }

  /** The command a non-empty id selects, when there is one. */
  predicate Selects(opts: HookOptions, project: Option<Project>)
  {
    opts.id.GetOr("") != "" && FindCommand(Commands(project), opts.id.value).Some?
  }

  function Selected(opts: HookOptions, project: Option<Project>): (e: CommandEntry)
    requires Selects(opts, project)
    ensures project.Some? && e in project.value.commands.value && e.name == opts.id.value
  {
    Commands(project)[FindCommand(Commands(project), opts.id.value).value]
  }

  /** What runs for the selected entry: its handler is resolved and what is found there
      decides, in the order existence, execute permission, module extension, shell. */
  function Classify(fs: FileSystem, entry: CommandEntry, id: string, rawArgs: seq<string>, cwd: string,
                    project: Project): (r: Result<Action, Failure>)
    ensures
      var res := ResolveHandlerFile(fs, entry.handler, cwd, id);
      r.Err? <==> res.Err? || (!res.value.found && LooksLikePath(entry.handler))
    ensures r.Err? ==> r.error == MissingIndexFile(id) || r.error == HandlerNotFound(id, HandlerPath(entry.handler, cwd))
    ensures
      var res := ResolveHandlerFile(fs, entry.handler, cwd, id);
      res.Ok? ==> r == ClassifyResolved(fs, entry, id, rawArgs, cwd, project, res.value)
    ensures r.Ok? && r.value.InvokeModule? ==> r.value.payload == Payload(HandlerArgs(rawArgs, id), rawArgs, id, cwd, project, project)
  {
    match ResolveHandlerFile(fs, entry.handler, cwd, id)
    case Err(e) => Err(e)
    case Ok(res) =>
      ResolvedFacts(fs, entry.handler, cwd, id);
      ClassifyResolved(fs, entry, id, rawArgs, cwd, project, res)
  }

  /** The action for a resolved handler, in the order existence, execute permission, module
      extension, shell. */
  function ClassifyResolved(fs: FileSystem, entry: CommandEntry, id: string, rawArgs: seq<string>, cwd: string,
                            project: Project, res: Resolution): (r: Result<Action, Failure>)
    ensures r.Err? <==> !res.found && LooksLikePath(entry.handler)
    ensures r.Err? ==> r.error == HandlerNotFound(id, res.path)
    ensures r.Ok? && r.value.SpawnByName? <==> r.Ok? && !res.found
    ensures r.Ok? && r.value.SpawnByName? ==> r.value.command == entry.handler
    ensures r.Ok? && !r.value.SpawnByName? ==> res.found && r.value.path == res.path
    ensures r.Ok? && res.found ==> (r.value.SpawnPath? <==> IsExecutable(fs, res.path))
    ensures r.Ok? && r.value.InvokeModule? ==> res.isModule
    ensures r.Ok? && r.value.RunViaSh? ==> !res.isModule
    ensures r.Ok? && r.value.InvokeModule? ==> r.value.payload == Payload(HandlerArgs(rawArgs, id), rawArgs, id, cwd, project, project)
  {
    var args := HandlerArgs(rawArgs, id);
    if !res.found then
      if LooksLikePath(entry.handler) then Err(HandlerNotFound(id, res.path))
      else Ok(SpawnByName(entry.handler, args, cwd))
    else if IsExecutable(fs, res.path) then Ok(SpawnPath(res.path, args, cwd))
    else if res.isModule then
      Ok(InvokeModule(res.path, Payload(args, rawArgs, id, cwd, project, project)))
    else Ok(RunViaSh(res.path, [res.path] + args, cwd))
  }

  /** What the file system holds for the decided action: a program run by name is not a
      file under the project; anything else exists; a script spawned directly is
      executable; a module or a script given to `sh` is a plain, non-executable file, and
      only one without a module extension goes to `sh`. */
  lemma ClassifyOnDisk(fs: FileSystem, entry: CommandEntry, id: string, rawArgs: seq<string>, cwd: string, project: Project)
    requires Classify(fs, entry, id, rawArgs, cwd, project).Ok?
    ensures
      var a := Classify(fs, entry, id, rawArgs, cwd, project).value;
      && (a.SpawnByName? ==> a.command == entry.handler && !FileExists(fs, HandlerPath(entry.handler, cwd)))
      && (!a.SpawnByName? ==> FileExists(fs, a.path))
      && (a.SpawnPath? ==> IsExecutable(fs, a.path))
      && (a.InvokeModule? || a.RunViaSh? ==> Lookup(fs, a.path) == Some(File(false)))
      && (a.RunViaSh? ==> ExtName(a.path) !in ModuleExtensions)
  {
    var res := ResolveHandlerFile(fs, entry.handler, cwd, id).value;
    ResolvedFacts(fs, entry.handler, cwd, id);
    assert Classify(fs, entry, id, rawArgs, cwd, project) == ClassifyResolved(fs, entry, id, rawArgs, cwd, project, res);
    var a := ClassifyResolved(fs, entry, id, rawArgs, cwd, project, res).value;
    if a.InvokeModule? || a.RunViaSh? {
      PlainFile(fs, res.path);
    }
  }

  /** A path that exists and is neither a directory nor executable is a plain file. */
  lemma PlainFile(fs: FileSystem, p: string)
    requires FileExists(fs, p) && !IsExecutable(fs, p)
    ensures Lookup(fs, p) == Some(File(false))
  {
    match Lookup(fs, p).value
    case Directory =>
    case File(executable) => assert !executable;
  }

  /** What a resolution says about the file system: a handler not found is the resolved
      path, which does not exist; a found one exists; one found but not a module is a file
      without a module extension. */
  lemma ResolvedFacts(fs: FileSystem, handler: string, cwd: string, id: string)
    ensures
      var r := ResolveHandlerFile(fs, handler, cwd, id);
      r.Ok? ==>
        && (!r.value.found ==> r.value.path == HandlerPath(handler, cwd) && !FileExists(fs, HandlerPath(handler, cwd)))
        && (r.value.found ==> FileExists(fs, r.value.path))
        && (r.value.found && !r.value.isModule ==>
              Lookup(fs, r.value.path).value.File? && ExtName(r.value.path) !in ModuleExtensions)
  {
  }

  // ---------------------------------------------------------------- performing it

  /** How a spawned child ends: it closes with a code (`None` when killed by a signal), or
      the spawn itself fails. */
  datatype ChildEnd = Closed(code: Option<int>) | SpawnError(message: string)

  /** `runProcess`: success exactly when the child closes with code 0. */
  function RunProcess(id: string, end: ChildEnd): (r: Result<(), Failure>)
    ensures r.Ok? <==> end == Closed(Some(0))
    ensures end.Closed? && end.code != Some(0) ==> r == Err(ExitedWith(id, end.code))
    ensures end.SpawnError? ==> r == Err(Thrown(end.message))
  {
    match end
    case SpawnError(message) => Err(Thrown(message))
    case Closed(code) => if code == Some(0) then Ok(()) else Err(ExitedWith(id, code))
  }

  /** A value a module evaluates to: `null`, `undefined`, or an object (callable or not)
      whose `default` property is itself such a value. */
  datatype Exported = Null | Undefined | Value(callable: bool, defaultExport: Exported)

  /** A foreign step (compiling, `require`, `import`, calling the handler): a value, or an
      exception with its `code` property. */
  datatype Attempt<T> = Returned(value: T) | Threw(code: Option<string>, message: string)

  predicate IsTypescriptFile(path: string)
  {
    ExtName(path) in TypescriptExtensions
  }

  /** The module's exports before unwrapping: TypeScript is compiled and evaluated; anything
      else is `require`d, and re-`import`ed only when `require` refuses an ES module. */
  function LoadExports(path: string, compiled: Attempt<Exported>, required: Attempt<Exported>,
                       imported: Attempt<Exported>): (r: Attempt<Exported>)
    ensures IsTypescriptFile(path) ==> r == compiled
    ensures !IsTypescriptFile(path) && required.Returned? ==> r == required
    ensures !IsTypescriptFile(path) && required.Threw? ==>
      r == (if required.code == Some("ERR_REQUIRE_ESM") then imported else required)
  {
    if IsTypescriptFile(path) then compiled
    else match required
      case Returned(_) => required
      case Threw(code, _) => if code == Some("ERR_REQUIRE_ESM") then imported else required
  }

  /** The message of the `TypeError` raised by reading `default` of `null` or `undefined`. */
  function NoDefault(isNull: bool): string
  {
    "Cannot read properties of " + (if isNull then "null" else "undefined") + " (reading 'default')"
  }

  /** `loaded.default ?? loaded`, which must be a function. */
  function Unwrap(loaded: Exported, id: string): (r: Result<Exported, Failure>)
    ensures r.Ok? ==> r.value.Value? && r.value.callable
    ensures r.Ok? ==> r.value == loaded || (loaded.Value? && r.value == loaded.defaultExport)
    ensures loaded.Value? && loaded.defaultExport.Value? ==>
      r == (if loaded.defaultExport.callable then Ok(loaded.defaultExport) else Err(MustExportFunction(id)))
    ensures loaded.Value? && !loaded.defaultExport.Value? ==>
      r == (if loaded.callable then Ok(loaded) else Err(MustExportFunction(id)))
    ensures !loaded.Value? ==> r == Err(Thrown(NoDefault(loaded.Null?)))
  {
    match loaded
    case Null => Err(Thrown(NoDefault(true)))
    case Undefined => Err(Thrown(NoDefault(false)))
    case Value(callable, d) =>
      var handler := if d.Value? then d else loaded;
      if handler.callable then Ok(handler) else Err(MustExportFunction(id))
  }

  /** The handler of a module: its unwrapped exports, or the exception loading it threw. */
  function LoadModuleHandler(path: string, id: string, compiled: Attempt<Exported>,
                             required: Attempt<Exported>, imported: Attempt<Exported>): (r: Result<Exported, Failure>)
    ensures r.Ok? ==> r.value.Value? && r.value.callable
    ensures LoadExports(path, compiled, required, imported).Threw? ==>
      r == Err(Thrown(LoadExports(path, compiled, required, imported).message))
    ensures LoadExports(path, compiled, required, imported).Returned? ==>
      r == Unwrap(LoadExports(path, compiled, required, imported).value, id)
  {
    match LoadExports(path, compiled, required, imported)
    case Threw(_, message) => Err(Thrown(message))
    case Returned(loaded) => Unwrap(loaded, id)
  }

  /** What the outside world answers while an action is performed. */
  datatype World = World(child: ChildEnd, compiled: Attempt<Exported>, required: Attempt<Exported>,
                         imported: Attempt<Exported>, handlerResult: Attempt<()>)

  /** The hook's outcome once the decided action has run. */
  function Perform(id: string, action: Action, world: World): (r: Result<(), Failure>)
    ensures !action.InvokeModule? ==> r == RunProcess(id, world.child)
    ensures action.InvokeModule? ==>
      var handler := LoadModuleHandler(action.path, id, world.compiled, world.required, world.imported);
      && (r.Ok? <==> handler.Ok? && world.handlerResult.Returned?)
      && (handler.Err? ==> r == Err(handler.error))
      && (handler.Ok? && world.handlerResult.Threw? ==> r == Err(Thrown(world.handlerResult.message)))
  {
    match action
    case SpawnByName(_, _, _) => RunProcess(id, world.child)
    case SpawnPath(_, _, _) => RunProcess(id, world.child)
    case RunViaSh(_, _, _) => RunProcess(id, world.child)
    case InvokeModule(path, _) =>
      match LoadModuleHandler(path, id, world.compiled, world.required, world.imported)
      case Err(e) => Err(e)
      case Ok(_) =>
        match world.handlerResult
        case Returned(_) => Ok(())
        case Threw(_, message) => Err(Thrown(message))
  }

  function Hook(opts: HookOptions, project: Option<Project>, processCwd: string, fs: FileSystem,
                world: World): (r: Result<(), Failure>)
    ensures Decide(opts, project, processCwd, fs).Err? ==> r == Err(Decide(opts, project, processCwd, fs).error)
    ensures Decide(opts, project, processCwd, fs).Ok? ==>
      opts.id.Some? && r == Perform(opts.id.value, Decide(opts, project, processCwd, fs).value, world)
  {
    match Decide(opts, project, processCwd, fs)
    case Err(e) => Err(e)
    case Ok(action) => Perform(opts.id.value, action, world)
  }

  // ---------------------------------------------------------------- properties

  /** A handler path that does not exist is an error when written as a path, and a program
      looked up by name otherwise. */
  lemma ClassifyMissing(fs: FileSystem, entry: CommandEntry, id: string, rawArgs: seq<string>, cwd: string, project: Project)
    requires !FileExists(fs, HandlerPath(entry.handler, cwd))
    ensures Classify(fs, entry, id, rawArgs, cwd, project) ==
      if LooksLikePath(entry.handler) then Err(HandlerNotFound(id, HandlerPath(entry.handler, cwd)))
      else Ok(SpawnByName(entry.handler, HandlerArgs(rawArgs, id), cwd))
  {
    var path := HandlerPath(entry.handler, cwd);
    assert ResolveHandlerFile(fs, entry.handler, cwd, id) == Ok(Resolution(path, false, false));
  }

  /** An existing file is run directly when executable; otherwise it is loaded as a module
      when its extension is a module extension, and given to `sh` when not. */
  lemma ClassifyFile(fs: FileSystem, entry: CommandEntry, id: string, rawArgs: seq<string>, cwd: string, project: Project,
                     executable: bool)
    requires Lookup(fs, HandlerPath(entry.handler, cwd)) == Some(File(executable))
    ensures
      var path := HandlerPath(entry.handler, cwd);
      var args := HandlerArgs(rawArgs, id);
      Classify(fs, entry, id, rawArgs, cwd, project) ==
        if executable then Ok(SpawnPath(path, args, cwd))
        else if ExtName(path) in ModuleExtensions then Ok(InvokeModule(path, Payload(args, rawArgs, id, cwd, project, project)))
        else Ok(RunViaSh(path, [path] + args, cwd))
  {
    var path := HandlerPath(entry.handler, cwd);
    assert ResolveHandlerFile(fs, entry.handler, cwd, id) == Ok(Resolution(path, true, ExtName(path) in ModuleExtensions));
    assert IsExecutable(fs, path) == executable;
  }

  /** A directory runs its first existing index file: directly when that file is
      executable, as a module otherwise; with no index file the hook fails. */
  lemma ClassifyDirectory(fs: FileSystem, entry: CommandEntry, id: string, rawArgs: seq<string>, cwd: string, project: Project)
    requires Lookup(fs, HandlerPath(entry.handler, cwd)) == Some(Directory)
    ensures
      var dir := HandlerPath(entry.handler, cwd);
      var args := HandlerArgs(rawArgs, id);
      Classify(fs, entry, id, rawArgs, cwd, project) ==
        match FirstTrue(IndexPresence(fs, dir))
        case None => Err(MissingIndexFile(id))
        case Some(i) =>
          var path := JoinPath(dir, IndexCandidates[i]);
          if IsExecutable(fs, path) then Ok(SpawnPath(path, args, cwd))
          else Ok(InvokeModule(path, Payload(args, rawArgs, id, cwd, project, project)))
  {
  }

  /** A module handler receives the command id, the raw argv, the derived arguments, the
      working directory, and the project both as `config` and as `project`. */
  lemma PayloadShape(opts: HookOptions, project: Option<Project>, processCwd: string, fs: FileSystem)
    requires Decide(opts, project, processCwd, fs).Ok?
    requires Decide(opts, project, processCwd, fs).value.InvokeModule?
    ensures
      var payload := Decide(opts, project, processCwd, fs).value.payload;
      && Selects(opts, project)
      && payload.command == opts.id.value
      && payload.argv == opts.argv.GetOr([])
      && payload.args == HandlerArgs(opts.argv.GetOr([]), opts.id.value)
      && payload.cwd == ProjectCwd(project, processCwd)
      && project.Some? && payload.config == project.value && payload.project == project.value
  {
    assert Selects(opts, project);
    var entry := Selected(opts, project);
    ClassifyPayload(fs, entry, opts.id.value, opts.argv.GetOr([]), ProjectCwd(project, processCwd), project.value);
  }

  lemma ClassifyPayload(fs: FileSystem, entry: CommandEntry, id: string, rawArgs: seq<string>, cwd: string, project: Project)
    ensures
      var r := Classify(fs, entry, id, rawArgs, cwd, project);
      r.Ok? && r.value.InvokeModule? ==> r.value.payload == Payload(HandlerArgs(rawArgs, id), rawArgs, id, cwd, project, project)
  {
  }

  /** Every action runs with the handler arguments: the raw argv without a leading id. */
  lemma ArgsOfAction(fs: FileSystem, entry: CommandEntry, id: string, rawArgs: seq<string>, cwd: string, project: Project)
    requires Classify(fs, entry, id, rawArgs, cwd, project).Ok?
    ensures
      var args := HandlerArgs(rawArgs, id);
      match Classify(fs, entry, id, rawArgs, cwd, project).value
      case SpawnByName(_, xs, _) => xs == args
      case SpawnPath(_, xs, _) => xs == args
      case RunViaSh(path, xs, _) => xs == [path] + args
      case InvokeModule(_, payload) => payload.args == args
  {
    var res := ResolveHandlerFile(fs, entry.handler, cwd, id).value;
    var action := Classify(fs, entry, id, rawArgs, cwd, project).value;
    assert ResolveHandlerFile(fs, entry.handler, cwd, id) == Ok(res);
    if !res.found {
      assert action == SpawnByName(entry.handler, HandlerArgs(rawArgs, id), cwd);
    }
  }

  lemma ArgsDropOneId(id: string, rest: seq<string>)
    ensures HandlerArgs([id, id] + rest, id) == [id] + rest
  {
    assert ([id, id] + rest)[1..] == [id] + rest;
  }

  /** After a child process, the hook succeeds exactly when the child closed with code 0; a
      failure exits with the child's code, or 1 without one, and never with 0. */
  lemma ChildOutcome(opts: HookOptions, project: Option<Project>, processCwd: string, fs: FileSystem, world: World)
    requires Decide(opts, project, processCwd, fs).Ok?
    requires !Decide(opts, project, processCwd, fs).value.InvokeModule?
    requires world.child.Closed?
    ensures Hook(opts, project, processCwd, fs, world).Ok? <==> world.child.code == Some(0)
    ensures Hook(opts, project, processCwd, fs, world).Err? ==>
      ExitStatus(Hook(opts, project, processCwd, fs, world).error) == Some(world.child.code.GetOr(1))
      && world.child.code.GetOr(1) != 0
  {
  }

  /** For a module handler, the hook succeeds exactly when the module loads to a function and
      calling it returns; otherwise it fails with the loading error or the thrown message. */
  lemma ModuleOutcome(opts: HookOptions, project: Option<Project>, processCwd: string, fs: FileSystem, world: World)
    requires Decide(opts, project, processCwd, fs).Ok?
    requires Decide(opts, project, processCwd, fs).value.InvokeModule?
    ensures
      var path := Decide(opts, project, processCwd, fs).value.path;
      var handler := LoadModuleHandler(path, opts.id.value, world.compiled, world.required, world.imported);
      var r := Hook(opts, project, processCwd, fs, world);
      && (r.Ok? <==> handler.Ok? && world.handlerResult.Returned?)
      && (handler.Err? ==> r == Err(handler.error))
      && (handler.Ok? && world.handlerResult.Threw? ==> r == Err(Thrown(world.handlerResult.message)))
  {
  }

  /** The `import` retry is consulted only for a non-TypeScript module whose `require`
      failed with `ERR_REQUIRE_ESM`; otherwise its outcome does not matter. */
  lemma ImportOnlyForEsm(path: string, compiled: Attempt<Exported>, required: Attempt<Exported>,
                         imported1: Attempt<Exported>, imported2: Attempt<Exported>)
    requires IsTypescriptFile(path) || required.Returned? || required.code != Some("ERR_REQUIRE_ESM")
    ensures LoadExports(path, compiled, required, imported1) == LoadExports(path, compiled, required, imported2)
  {
  }

  /** A TypeScript handler is compiled and never `require`d. */
  lemma TypescriptIsCompiled(path: string, compiled: Attempt<Exported>, required1: Attempt<Exported>,
                             required2: Attempt<Exported>, imported: Attempt<Exported>)
    requires IsTypescriptFile(path)
    ensures LoadExports(path, compiled, required1, imported) == LoadExports(path, compiled, required2, imported)
  {
  }
}
