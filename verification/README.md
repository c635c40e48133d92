# devctl core, modelled in Dafny

devctl is a command-line tool that runs a project's services with `docker compose`. This
project models the parts of it that decide things, as pure functions over strings,
sequences and association lists, and proves properties of them:

- **Custom commands** (`Dispatcher`, `dispatcher.dfy`). The `command_not_found` hook looks
  an unknown id up among the project's custom commands. It resolves the handler against
  the project directory and picks a directory's index file. It then classifies the
  handler, in a fixed order: missing, executable, module, shell. It derives the handler's
  arguments and maps a child's close code to the hook's outcome. The filesystem is a
  snapshot map from normalized absolute paths to `Directory | File(executable)`.
- **`.env` files** (`DotEnv`, `dotenv.dfy`): the writer (`stringifyToEnv`) and the lenient
  reader (`parseEnv`), with the round trip the read-merge-write cycle of `compile` relies on.
- **The state file and docker command text** (`ComposeState`, `compose_state.dfy`):
  - the JSON/legacy decoder of the state file and its writer;
  - the container-id splitter;
  - the `docker rm -f` guard;
  - the `docker compose -f "<file>" <cmd>` template.
- **`compile`** (`Compile`, `compile.dfy`):
  - the per-service `.env` merge and write;
  - the `afterSwitch`/`start` script collection;
  - the proxy routing table, ssl loading and ports;
  - the `devctl-proxy` service and the `services` wrapping.
- **`run`, `exec`, `logs`** (`ComposeArgs`, `compose_args.dfy`). Each command's flags form a
  table of slots that emit argument parts in a fixed order. A decoder reads the parts back
  into the flags and the positional arguments, which proves that the order is fixed and
  that no flag's parts can be mistaken for another's.
- **`switch-env`** (`SwitchEnv`, `switch_env.dfy`):
  - the sorted, partitioned service choices and the pre-checked services;
  - the environment step and its labels;
  - the current configuration the command writes.

Supporting modules:

- `Wrappers`: `Option` and `Result`.
- `Strings`: `trim`, `split`, `join` and `toLowerCase` on ASCII.
- `Objects`: JavaScript objects as insertion-ordered association lists, where assignment
  overwrites in place.
- `Json`: a JSON subset covering null, booleans, integers, strings, arrays and objects. It
  has a parser, and a printer in compact and two-space form, with a general round trip.
- `Paths`: POSIX `isAbsolute`, `resolve`, `join` and `extname`.

Behaviours of the code worth noting:

- The hook drops only one leading copy of the id from argv: `[id, id, x]` gives `[id, x]`.
- A TypeScript handler is compiled and evaluated. It is never `require`d, so the
  `ERR_REQUIRE_ESM` fallback to `import` only applies to JavaScript files.
- A state written with an empty `composePath` does not read back as itself. Its whole
  JSON text is taken as a legacy compose path.
- `compile` replaces `proxy.ssl.key` and `proxy.ssl.cert` with the contents of the files
  they name before it checks them for the https port. A configured but empty certificate
  or key file therefore publishes no https port.

## Model

| member | source | states |
|---|---|---|
| Paths.Resolve | src/hooks/command_not_found.ts:32 | `path.resolve` gives a canonical absolute path: plain segments, no `.`/`..`, no trailing slash |
| Paths.ResolveIdempotent | src/hooks/command_not_found.ts:32 | resolving an already resolved handler path changes nothing |
| Paths.JoinPath | src/hooks/command_not_found.ts:41 | `path.join` of a directory and a name is canonical |
| Paths.JoinPlain | src/hooks/command_not_found.ts:41 | joining a plain file name onto a canonical directory appends exactly that one segment |
| Paths.ExtName | src/hooks/command_not_found.ts:52 | `extname` is empty or a dot followed by text with no dot or slash |
| Paths.ExtNameOfFile | src/hooks/command_not_found.ts:52 | a file named `stem + ".ext"` has extension `.ext`, whatever directory it is in |
| Paths.ExtNameDotFile | src/hooks/command_not_found.ts:56-58 | a dotfile such as `.env` has no extension, so it is neither a module nor TypeScript |
| Dispatcher.HandlerPath | src/hooks/command_not_found.ts:32 | an absolute handler is used unchanged; a relative one is resolved against the project directory |
| Dispatcher.IndexPresence | src/hooks/command_not_found.ts:39-45 | one existence test per index candidate, in the fixed order `index.js` … `index.mts` |
| Dispatcher.FirstTrue | src/hooks/command_not_found.ts:40-45 | the loop stops at the first candidate that exists, and only when one does |
| Dispatcher.ResolveHandlerFile | src/hooks/command_not_found.ts:27-54 | a missing path is `exists=false, isModule=false`; a file is a module iff its extension is a module extension; a directory yields its first existing index file as a module, and it fails with the missing-index error exactly when none exists |
| Dispatcher.FindCommand | src/hooks/command_not_found.ts:149 | the first entry whose name equals the id, and none exactly when no entry has that name |
| Dispatcher.HandlerArgs | src/hooks/command_not_found.ts:157 | argv minus its first element when that element is the id, argv unchanged otherwise |
| Dispatcher.ArgsDropOneId | src/hooks/command_not_found.ts:157 | only one leading id is dropped: `[id, id] + rest` gives `[id] + rest` |
| Dispatcher.Decide | src/hooks/command_not_found.ts:141-170 | an empty or missing id is "command not found"; an id matching no entry is the distinct "command <id> not found"; otherwise the selected entry is classified with the project's directory, or the process's when the project names none |
| Dispatcher.Selected | src/hooks/command_not_found.ts:148-149 | the selected entry belongs to the project's commands and carries the id as its name |
| Dispatcher.Classify | src/hooks/command_not_found.ts:159-190 | fails iff resolution fails (missing index file) or a handler written as a path is not found; otherwise decides from the resolution, a module action carrying the payload |
| Dispatcher.ClassifyResolved | src/hooks/command_not_found.ts:161-190 | a handler not found is spawned by its bare name unless written as a path; a found one is spawned iff executable, else invoked as a module iff it is one, else given to `sh` |
| Dispatcher.ClassifyOnDisk | src/hooks/command_not_found.ts:161-190 | a program run by name does not exist under the project; any other action's path exists; a spawned path is executable; a module or `sh` script is a plain non-executable file, and a `sh` script has no module extension |
| Dispatcher.ClassifyMissing | src/hooks/command_not_found.ts:161-169 | a handler that does not exist is a "handler not found" error when it contains `/` or starts with `.`, and is otherwise spawned by bare name with the derived arguments |
| Dispatcher.ClassifyFile | src/hooks/command_not_found.ts:172-190 | an existing file is spawned when executable, else invoked as a module when its extension is a module extension, else run as `sh path args…` |
| Dispatcher.ClassifyDirectory | src/hooks/command_not_found.ts:38-49 | a directory handler runs its first existing index file, spawned when executable and invoked as a module otherwise; with no index file the hook fails |
| Dispatcher.ClassifyPayload | src/hooks/command_not_found.ts:179-186 | a module action carries the derived args, the raw argv, the id, the directory and the project twice |
| Dispatcher.PayloadShape | src/types/custom-command.ts:3-10 | the payload a module handler receives: `command` is the id, `argv` the raw argv, `args` the derived arguments, `cwd` the project directory, `config` and `project` the project |
| Dispatcher.ArgsOfAction | src/hooks/command_not_found.ts:168-190 | every action runs with the derived arguments, and `sh` gets the script path in front of them |
| Dispatcher.RunProcess | src/hooks/command_not_found.ts:110-139 | success exactly when the child closes with code 0; another code, or none, fails with "exited with code"; a spawn error is rethrown |
| Dispatcher.ExitStatus | src/hooks/command_not_found.ts:132-135 | only a child's failure names an exit status: its close code, or 1 (`code ?? 1`) when there is none, so it is 0 only for a close code of 0 |
| Dispatcher.ChildOutcome | src/hooks/command_not_found.ts:126-136 | after a spawned child the hook succeeds iff the close code is 0; a failure exits with the child's code, or 1 when there is none, and never with 0 |
| Dispatcher.LoadExports | src/hooks/command_not_found.ts:80-97 | TypeScript is compiled and evaluated; other files are `require`d; `import` is used only when `require` fails with `ERR_REQUIRE_ESM`, and any other failure is rethrown |
| Dispatcher.ImportOnlyForEsm | src/hooks/command_not_found.ts:87-96 | without an `ERR_REQUIRE_ESM` failure of `require`, the outcome of `import` does not matter |
| Dispatcher.TypescriptIsCompiled | src/hooks/command_not_found.ts:80-86 | for a TypeScript handler, the outcome of `require` does not matter |
| Dispatcher.Unwrap | src/hooks/command_not_found.ts:99-105 | the handler is `default` when it is set, the module itself otherwise, and it must be callable; a `null` or `undefined` module throws the `TypeError` of reading its `default` |
| Dispatcher.LoadModuleHandler | src/hooks/command_not_found.ts:74-108 | a load that throws fails with the exception's message; a loaded module is unwrapped, and a handler obtained is always a callable value |
| Dispatcher.Perform | src/hooks/command_not_found.ts:168-190 | every non-module action ends as its child process ends; a module action succeeds iff its handler loads and the call returns, and otherwise fails with the load error or the call's exception |
| Dispatcher.Hook | src/hooks/command_not_found.ts:141-191 | a failure in lookup or resolution is the hook's failure, and nothing runs; otherwise the hook's outcome is that of performing the decided action |
| Dispatcher.ModuleOutcome | src/hooks/command_not_found.ts:177-188 | for a module handler the hook succeeds iff the module loads to a function and the call returns; otherwise it fails with the load error or the call's exception |
| DotEnv.ParseValueText | src/utils/dotenv.ts:32-36 | a value is its JSON when the text is JSON of the modelled subset (integers, no fractions or exponents), and the text itself otherwise |
| DotEnv.ParseRow | src/utils/dotenv.ts:20-36 | a row without `=` is skipped; a kept row's name is non-empty, trimmed and free of `=` |
| DotEnv.RowSplitsAtFirstEquals | src/utils/dotenv.ts:20-30 | a row is split at its first `=`, both halves trimmed, so the value may contain `=` |
| DotEnv.RowWithEmptyName | src/utils/dotenv.ts:25-28 | a row whose name trims to nothing is skipped |
| DotEnv.StringifyToEnv | src/utils/dotenv.ts:3-7 | no properties give the empty text; the text starts with the first property's `name=<JSON>` line, and one property is written without a line break |
| DotEnv.ParsedRows | src/utils/dotenv.ts:17-37 | every kept row has a non-empty, trimmed name |
| DotEnv.ParsedRowsAppend | src/utils/dotenv.ts:19-37 | rows are read one after another: the properties of consecutive parts are those of each part, in order |
| DotEnv.ParsedRowsOne | src/utils/dotenv.ts:19-37 | a row defines its property when it parses and nothing otherwise |
| DotEnv.ParseEnv | src/utils/dotenv.ts:9-43 | reading never fails and gives an object of valid names and values, each name holding the value of the last row that defines it |
| DotEnv.LaterDuplicateOverwrites | src/utils/dotenv.ts:32-36 | a name defined on several rows takes the value of the last of them |
| DotEnv.LineReadsBack | src/utils/dotenv.ts:5 | a written line reads back as its name and value, even with the `\r` a CRLF file leaves on it |
| DotEnv.RowReadsBack | src/utils/dotenv.ts:20-36 | a row with a valid name reads back as that name and the value of its trimmed right half |
| DotEnv.JoinCrlf | src/utils/dotenv.ts:13-17 | a CRLF-joined file splits on `\n` into the lines with `\r` left on all but the last |
| DotEnv.WrittenText | src/utils/dotenv.ts:3-17 | a written file splits on `\n` back into the rows it was written as |
| DotEnv.ParseStringifyRoundTrip | src/utils/dotenv.ts:3-43 | reading a written file gives back exactly the properties, in order, under either line break |
| DotEnv.MergeIsStable | src/commands/compile.ts:48-61 | the merged properties `compile` writes read back as exactly those properties |
| Json.StringifyRoundTrip | src/utils/dotenv.ts:5 | `JSON.parse(JSON.stringify(v))` is `v` |
| Json.PrettyRoundTrip | src/utils/dockerCompose.ts:43 | `JSON.parse(JSON.stringify(v, null, 2))` is `v` |
| Json.PrintBounded | src/utils/dockerCompose.ts:19 | printed JSON neither starts nor ends with white space, so `trim` leaves it unchanged |
| Strings.Trim | src/utils/dotenv.ts:25 | the trimmed text has no surrounding white space, and is empty iff the text was all white space |
| Strings.Split | src/utils/dotenv.ts:17 | the pieces contain no separator and join back into the text |
| Strings.SplitJoin | src/utils/dockerCompose.ts:66 | splitting pieces that were joined by a separator they do not contain gives the pieces back |
| Strings.Lower | src/commands/switch-env.ts:31 | lower-casing maps each character and keeps the length |
| Objects.Put | src/commands/compile.ts:120 | assignment sets the key, leaves other keys alone, and keeps an existing key in its place or appends a new one |
| Objects.Spread | src/commands/compile.ts:56-59 | each key of the spread takes the last value the right side assigns it, or keeps the left side's |
| Objects.FromPairs | src/commands/compile.ts:108-123 | assigning pairs onto `{}` gives an object where each key holds the last value assigned to it |
| ComposeState.StateJson | src/utils/dockerCompose.ts:11-14 | the state object carries its compose path under `composePath` |
| ComposeState.DecodeLastState | src/utils/dockerCompose.ts:16-40 | a missing, unreadable or blank file is `null`; JSON with a truthy `composePath` is returned as parsed; anything else is the legacy state made from the trimmed text; a decoded state always has a truthy `composePath` |
| ComposeState.WriteCurrentState | src/utils/dockerCompose.ts:42-44 | the written text parses back to the state object and is unchanged by `trim` |
| ComposeState.WriteReadRoundTrip | src/utils/dockerCompose.ts:42-44 | a state written with a non-empty compose path reads back as itself |
| ComposeState.EmptyPathReadsAsLegacy | src/utils/dockerCompose.ts:25-36 | a state written with an empty compose path reads back as a legacy path holding its whole text |
| ComposeState.LegacyPathReads | src/utils/dockerCompose.ts:32-36 | a bare compose path that is not JSON reads as that path with no containers |
| ComposeState.NonEmpty | src/utils/dockerCompose.ts:66 | `filter(Boolean)` drops the empty lines and keeps every non-empty line as often as it occurs; with no empty line it changes nothing |
| ComposeState.NonEmptyAppend | src/utils/dockerCompose.ts:66 | `filter(Boolean)` works piece by piece, so it keeps the order of the strings it keeps |
| ComposeState.NonEmptyOne | src/utils/dockerCompose.ts:66 | a single string is kept iff it is not empty |
| ComposeState.ContainerIds | src/utils/dockerCompose.ts:63-70 | a failing command gives no ids; otherwise the ids are the non-empty lines of the trimmed output, in order: each a line of it, with no line break, and every non-empty line kept as often as it occurs |
| ComposeState.IdsOf | src/utils/dockerCompose.ts:66 | the ids of an output are the non-empty pieces of its trimmed text split at `\n` |
| ComposeState.IdsReadBack | src/utils/dockerCompose.ts:66 | ids printed one per line with a final line break are read back exactly |
| ComposeState.RemoveCommand | src/utils/dockerCompose.ts:72-76 | no command exactly when the list is empty |
| ComposeState.RemoveCommandNames | src/utils/dockerCompose.ts:74-76 | the removal command names exactly the given containers, in order |
| ComposeState.ParseComposeCommand | src/utils/dockerCompose.ts:91 | a compose file read from a command text holds no double quote |
| ComposeState.ComposeCommand | src/utils/dockerCompose.ts:91 | the command starts with `docker compose -f "`, and for a file name without a double quote the first quote after that prefix closes the name |
| ComposeState.ComposeCommandParts | src/utils/dockerCompose.ts:91 | the compose file and the command are recovered from `docker compose -f "<file>" <cmd>` |
| Compile.Then | src/commands/compile.ts:65-93 | steps run in order: the first failure wins, whichever step it comes from, otherwise the outputs are concatenated |
| Compile.ThenAssoc | src/commands/compile.ts:65-93 | how a run of steps is grouped does not change the result |
| Compile.ComposeOf | src/commands/compile.ts:30-37 | starting from `{}`, no services leave it as it is, and the last service's fragment (`compose || {}`) is merged last, onto the merge of all the services before it |
| Compile.ComposeOfAppend | src/commands/compile.ts:33-37 | the compose merge is a left fold over the services, in service order |
| Compile.SpreadSource | src/commands/compile.ts:58 | spreading an object assigns its own properties, in order |
| Compile.MergedEnv | src/commands/compile.ts:45-59 | after the merge each name holds the service's `dotenv` value when it sets one, and the existing file's value otherwise |
| Compile.DotenvServices | src/commands/compile.ts:39-41 | only services with a truthy `dotenv` get a `.env` file |
| Compile.EnvFileText | src/commands/compile.ts:56-61 | the written text reads back as the merged properties whenever their names and values are ones the reader gives back |
| Compile.EnvFiles | src/commands/compile.ts:33-62 | exactly one `.env` file is written per service with a truthy `dotenv`, in service order, each holding that service's `dotenv` merged over what its path held after the earlier writes |
| Compile.WriteEachContents | src/commands/compile.ts:43-61 | each file's content is computed from its service and from the file as the earlier writes left it |
| Compile.EnvFilesReadBack | src/commands/compile.ts:43-61 | each written `.env` reads back with its service's `dotenv` names set to their values, and every other name as the file held it before that write |
| Compile.EnvFilesPaths | src/commands/compile.ts:39-61 | whatever each file's content is, the files written are the `.env` paths of the `dotenv` services, in order |
| Compile.WriteStep | src/commands/compile.ts:43-61 | a service with a truthy `dotenv` writes its own file before the later services' files |
| Compile.EnvFileReadsBack | src/commands/compile.ts:45-61 | a written `.env` reads back with each `dotenv` name set to its value, and every other name kept from the previous file |
| Compile.ScriptValues | src/commands/compile.ts:67-68 | a missing map is `{}`; `null` throws; an object gives its values in order |
| Compile.GroupOf | src/commands/compile.ts:66-77 | a `null` map throws; a map with no values adds no group; otherwise the service adds one group, named after it, holding all the map's values |
| Compile.ScriptGroups | src/commands/compile.ts:65-93 | collection throws iff some service's map is `null`; otherwise at most one non-empty group per service |
| Compile.ScriptGroupsAppend | src/commands/compile.ts:65-78 | the groups keep service order: those of consecutive services are the groups of each part, concatenated |
| Compile.SkipsEmpty | src/commands/compile.ts:69-71 | a service whose map has no values adds no group |
| Compile.KeepsNonEmpty | src/commands/compile.ts:66-77 | a service whose map has values adds its group, with those values, ahead of the groups of the services after it |
| Compile.ProxyRoutes | src/commands/compile.ts:116-121 | one route per path of a proxy entry, all to `<protocol>://<dockerhost>:<port>`; an entry without an array of paths throws |
| Compile.ProxiesRoutes | src/commands/compile.ts:116-122 | the entries of one `proxy` list throw iff one of them does; every route value is a URL string |
| Compile.ServiceProxyRoutes | src/commands/compile.ts:111-116 | a falsy `proxy` adds no route; an array adds its entries' routes; any other truthy value throws, as does an array with a throwing entry |
| Compile.ServiceRoutes | src/commands/compile.ts:110-123 | collection throws, always with a `TypeError`, iff some current service's `proxy` throws |
| Compile.RoutePairs | src/commands/compile.ts:110-123 | a missing `current.services` gives no routes; `null` or any other non-array throws, as does a throwing service; every route value is a string |
| Compile.Routes | src/commands/compile.ts:108-123 | each path routes to the value it was assigned last |
| Compile.ServiceRoutesAppend | src/commands/compile.ts:110-123 | routes are collected service by service, in the order of the current services |
| Objects.LastWithAppend | src/commands/compile.ts:120 | of two runs of assignments, the later run's value of a name wins |
| Compile.LastWithFound | src/commands/compile.ts:120 | a name that is assigned ends up holding one of the values assigned to it |
| Compile.ProxyPathRoutes | src/commands/compile.ts:116-121 | every path of an entry routes to that entry's URL unless a later route of the entry claims it |
| Compile.LaterServiceWins | src/commands/compile.ts:110-123 | a path routed by a later service overrides an earlier one |
| Compile.ConfigPath | src/commands/compile.ts:130 | a non-string name throws; an absolute name is read as it is, whatever `cwd` holds; otherwise a truthy non-string `cwd` throws, and the name is resolved against `cwd` (or `.`) in the process's directory |
| Compile.AbsoluteNameIgnoresCwd | src/commands/compile.ts:130 | a certificate named by an absolute path is read from that path, even beside a `cwd` that is not a string |
| Compile.SetSsl | src/commands/compile.ts:128-129 | after assignment `proxy.ssl[field]` holds the file contents |
| Compile.SetSslKeeps | src/commands/compile.ts:128-137 | setting one field of `proxy.ssl` leaves the others unchanged |
| Compile.LoadSsl | src/commands/compile.ts:127-141 | an unset field leaves the proxy settings as they were; a set field is replaced by the contents of the file it names; loading fails iff the name does not resolve or the file is missing, the latter as a missing-file error |
| Compile.ProxySettings | src/commands/compile.ts:125-141 | `proxy || {}` with the key, then the certificate, loaded: it fails iff one of them cannot be loaded, the key's error first; on success each configured field holds its file's contents |
| Compile.CertKeepsKey | src/commands/compile.ts:127-141 | loading the certificate keeps the key already loaded |
| Compile.PortMapping | src/commands/compile.ts:156-160 | `${port}:${port}`: two equal halves around one `:` |
| Compile.Ports | src/commands/compile.ts:143-161 | http is always published (80 by default); https (443 by default) is added only with ssl |
| Compile.NumericMapping | src/commands/compile.ts:156 | a numeric port is published on the same port: the mapping splits at `:` into the port twice |
| Compile.HasSslOf | src/commands/compile.ts:158 | ssl is on iff both the certificate and the key text are non-empty |
| Compile.HttpsNeedsContents | src/commands/compile.ts:127-161 | with a configured certificate and key, https is published iff both files have content |
| Compile.ProxyService | src/commands/compile.ts:163-168 | the `devctl-proxy` service: the proxy image, `restart: always`, the given ports in order, and `DEVCTL_PROXY` in its environment |
| Compile.ProxyEnvironment | src/commands/compile.ts:145-154 | `DEVCTL_PROXY` parses back to `{routes, proxy}` whenever both are values JavaScript can build |
| Compile.ProxyServiceOf | src/commands/compile.ts:104-168 | computing the proxy service fails iff collecting the routes or loading the settings does, the routes' `TypeError` first; its `DEVCTL_PROXY` carries the routing table and the loaded settings |
| Compile.ProxyEnvironmentReadsBack | src/commands/compile.ts:145-154 | `DEVCTL_PROXY` parses back to the routing table and the proxy settings |
| Compile.Wrap | src/commands/compile.ts:172-174 | the written compose always has truthy `services`, and one that already has them is left as it is |
| Compile.WrapIdempotent | src/commands/compile.ts:172-174 | wrapping a wrapped compose changes nothing |
| Compile.WrapNests | src/commands/compile.ts:172-174 | without `services`, every entry moves under `services` unchanged |
| Compile.ComposeToWriteAsWritten | src/commands/compile.ts:104-174 | as the code builds it: with the proxy disabled the merged compose is only wrapped; with it enabled the write succeeds iff the proxy service can be computed; the result always has truthy `services` |
| Compile.ProxyBesideServices | src/commands/compile.ts:163-174 | as the code builds it, when the fragments already hold a truthy `services` the proxy lands beside it at the top level and `services` stays as it was |
| Compile.ComposeToWrite | src/commands/compile.ts:104-174 | with the proxy disabled the merged compose is only wrapped; with it enabled the write succeeds iff the proxy service can be computed; the result always has truthy `services` |
| Compile.WithProxyIsService | src/commands/compile.ts:163-174 | the added proxy is read back from `services` of the wrapped compose, whether or not the fragments held `services` |
| Compile.ProxyServiceAdded | src/commands/compile.ts:163-174 | with the proxy enabled, the written `services` holds `devctl-proxy` as computed, when the fragments' `services` is absent, falsy or an object |
| Compile.Run | src/commands/compile.ts:24-179 | the `.env` files are those of `EnvFiles`; the scripts are the two collections, `afterSwitch` first, and fail with the first error; a throwing collection stops the compose write with that error; otherwise the compose is that of `ComposeToWrite` on the merged fragments, against the files after the `.env` writes, and is written unless a proxy step throws |
| Compile.RunWritesProxy | src/commands/compile.ts:104-178 | with the proxy enabled and the run successful, the written compose holds `devctl-proxy` among its services, computed against the files after the `.env` writes |
| Compile.RunWithoutProxy | src/commands/compile.ts:171-178 | with the proxy disabled and the scripts collected, the compose written is the merged fragments, wrapped |
| ComposeArgs.Emit | src/commands/run.ts:49-71 | every part a flag pushes starts with that flag's spelling |
| ComposeArgs.DecodeAll | src/commands/run.ts:49-74 | decoding gives one setting per flag, each of the right kind |
| ComposeArgs.TagOfPrefixed | src/commands/run.ts:49-71 | a part that starts with a flag's spelling is recognised as that flag |
| ComposeArgs.NotPrefixed | src/commands/run.ts:49-71 | a part recognised as one flag never starts with another flag's spelling |
| ComposeArgs.LaterPartsDiffer | src/commands/run.ts:49-74 | no part pushed after a flag's own parts can be taken for that flag |
| ComposeArgs.TakeEmit | src/commands/run.ts:49-71 | one flag is read back exactly from the parts it pushed |
| ComposeArgs.TakeRepeated | src/commands/run.ts:60-71 | a repeated flag reads back all its values, in input order |
| ComposeArgs.DecodeEmit | src/commands/run.ts:47-74 | decoding undoes pushing: every flag reads back its setting and the positional arguments are what is left |
| ComposeArgs.Invocation | src/utils/dockerCompose.ts:91 | an error exactly when there is no compose file, carrying the message the commands stop with; otherwise the compose file and the space-joined parts read back from the command text |
| ComposeArgs.RunSettings | src/commands/run.ts:49-71 | `run`'s flags fit its table: -d, --name, --entrypoint, -u, --no-deps, --rm, --service-ports, --use-aliases, -T, -w, then -e, -l, -p, -v |
| ComposeArgs.RunTable | src/commands/run.ts:49-71 | no two of `run`'s flag spellings can be confused |
| ComposeArgs.RunParts | src/commands/run.ts:47-74 | the parts start with `run` and end with argv |
| ComposeArgs.RunRoundTrip | src/commands/run.ts:47-74 | `run`'s parts decode back to exactly its flags and its positional arguments |
| ComposeArgs.RunCommand | src/commands/run.ts:40-83 | no compose file is an error; otherwise the command text carries the compose file and `run`'s parts joined by spaces |
| ComposeArgs.IndexText | src/commands/exec.ts:45 | `--index` pushes nothing exactly when it is 0 |
| ComposeArgs.IndexTextReadsBack | src/commands/exec.ts:45 | the index is recovered from its text |
| ComposeArgs.ExecSettings | src/commands/exec.ts:42-50 | `exec`'s flags fit its table: -d, --privileged, -u, --index=, -T, then -e, then -w |
| ComposeArgs.ExecTable | src/commands/exec.ts:42-50 | no two of `exec`'s flag spellings can be confused |
| ComposeArgs.ExecParts | src/commands/exec.ts:40-53 | the parts start with `exec` and end with argv; an index of 0 pushes no `--index=` part |
| ComposeArgs.NoIndexPart | src/commands/exec.ts:45 | with index 0 no flag part starts with `--index=` |
| ComposeArgs.PartSlot | src/commands/exec.ts:42-50 | every flag part comes from a flag that pushed something |
| ComposeArgs.ExecRoundTrip | src/commands/exec.ts:40-53 | `exec`'s parts decode back to exactly its flags and its positional arguments |
| ComposeArgs.ExecCommand | src/commands/exec.ts:33-62 | no compose file is an error; otherwise the command text carries the compose file and `exec`'s parts joined by spaces |
| ComposeArgs.LogsSettings | src/commands/logs.ts:40-43 | `logs`'s flags fit its table: -f, -t, --tail=, --no-color |
| ComposeArgs.LogsTable | src/commands/logs.ts:40-43 | no two of `logs`'s flag spellings can be confused |
| ComposeArgs.LogsParts | src/commands/logs.ts:38-46 | the parts start with `logs` and end with argv |
| ComposeArgs.LogsRoundTrip | src/commands/logs.ts:38-46 | `logs`'s parts decode back to exactly its flags and its positional arguments |
| ComposeArgs.LogsCommand | src/commands/logs.ts:31-55 | no compose file is an error; otherwise the command text carries the compose file and `logs`'s parts joined by spaces |
| SwitchEnv.Insert | src/commands/switch-env.ts:31 | inserting into a sorted list keeps it sorted and adds exactly that choice |
| SwitchEnv.SortedCons | src/commands/switch-env.ts:31 | a choice ordered before every element of a sorted list can go in front of it |
| SwitchEnv.BelowFirst | src/commands/switch-env.ts:31 | a choice ordered before the head of a sorted list is ordered before all of it |
| SwitchEnv.AboveInserted | src/commands/switch-env.ts:31 | the head of a sorted list is ordered before everything in its tail after an insertion |
| SwitchEnv.Sort | src/commands/switch-env.ts:25-31 | the choices sorted by lower-cased name: a permutation that is ordered |
| SwitchEnv.Keep | src/commands/switch-env.ts:33-35 | the filter keeps exactly the choices of one category, in their order |
| SwitchEnv.PartitionIsWhole | src/commands/switch-env.ts:33-35 | the offered and the always-on choices together are all the services |
| SwitchEnv.SubseqSorted | src/commands/switch-env.ts:33 | filtering a sorted list keeps it sorted |
| SwitchEnv.SubseqHas | src/commands/switch-env.ts:33-35 | every filtered choice is one of the services |
| SwitchEnv.Partitioned | src/commands/switch-env.ts:25-35 | both lists are sorted; the offered choices are exactly the services that are not `always` and the always list exactly those that are, each as often as it occurs |
| SwitchEnv.Texts | src/commands/switch-env.ts:37-39 | `includes` matches only the string entries of the current list |
| SwitchEnv.Among | src/commands/switch-env.ts:37-39 | the current services that are offered, in current order |
| SwitchEnv.AmongAppend | src/commands/switch-env.ts:37-39 | the filter works element by element |
| SwitchEnv.AmongAll | src/commands/switch-env.ts:37-39 | a list of offered names passes the filter unchanged |
| SwitchEnv.AmongNone | src/commands/switch-env.ts:37-39 | no name that is not offered passes the filter |
| SwitchEnv.Initial | src/commands/switch-env.ts:37-39 | pre-selected are exactly the offered services the current configuration lists; a current list that is set but not an array throws |
| SwitchEnv.Checkboxes | src/commands/switch-env.ts:41-48 | one checkbox per offered service, checked iff it is pre-selected |
| SwitchEnv.CheckedIffCurrent | src/commands/switch-env.ts:37-46 | an offered service is checked iff the current configuration lists it |
| SwitchEnv.LabelReadsBack | src/commands/switch-env.ts:58-61 | a label gives back the name and the description (empty when falsy), for any name that neither holds ` - ` nor ends in ` -` |
| SwitchEnv.EnvironmentStep | src/commands/switch-env.ts:55-73 | with exactly one environment it is picked without asking; otherwise one option per environment, each labelled and valued by name, defaulting to `current.environment` or `null` |
| SwitchEnv.DefaultIsChosen | src/commands/switch-env.ts:69-80 | after a switch, the next run's prompt defaults to the environment chosen |
| SwitchEnv.CurrentConfig | src/commands/switch-env.ts:76-80 | the written configuration is `{services, environment, dockerhost: ''}` |
| SwitchEnv.Run | src/commands/switch-env.ts:19-82 | the prompt, the environment step, and the written services (the picked ones followed by every `always` service) with the chosen environment |
| SwitchEnv.ReselectRoundTrip | src/commands/switch-env.ts:37-80 | after a switch, running again pre-checks exactly the services that were picked |
| SwitchEnv.CurrentRead | src/commands/switch-env.ts:37 | the next run reads the written services as `current.services` |
| SwitchEnv.TextsOfStrings | src/commands/switch-env.ts:37-39 | a written list of names is read back as those names |

## Left out

- Filesystem and process I/O are left out: `access`, `stat`, `readFile`, `writeFile`, `spawn`, `exec`, stdio inheritance and the child's `error` event. The filesystem is a snapshot given as a parameter. A child's ending is given as data.
- The foreign steps of loading a handler are left out: esbuild, `new Function`, `require`, `import` and calling the handler. Their outcomes are given as data.
- Dispatcher.IsExecutable: treats a directory as executable, as `access(X_OK)` does for a searchable directory. Permission bits are not modelled further.
- The oclif exit code for hook errors other than a child's close code is left out. It is library behaviour.
- Compile.ComposeOf: `deepmerge` is library code, so it is a parameter of the model.
- YAML output (`js-yaml`) is left out. The written values are modelled as JSON values.
- `getDockerHost`, the configuration loader, `resolveService` and the YAML reader are left out. Their results are inputs.
- Json: numbers are exact integers of any size. JavaScript numbers are doubles: `JSON.parse` rounds integers beyond 2^53 (`9007199254740993` becomes `9007199254740992`), and `${n}` prints exponent form from 1e21 on, which `Compile.PortMapping` and `ComposeArgs.IndexText` would then contain. Fractions, exponents and surrogate-pair escapes are left out.
- Objects: property order ignores JavaScript's ordering of integer-like keys before other keys. The `__proto__` key is left out.
- Compile.GetPath: lodash `get` walks only object properties. Array indices and string properties read as `undefined`.
- Paths.Resolve: the working directory is assumed absolute.
- Paths.ExtName: the result is proved for a base name with a final extension. Trailing slashes are handled but no lemma covers them.
- SwitchEnv.Sort: `localeCompare` is an abstract total preorder, and lower-casing is ASCII only. Stability is not proved; the sort keeps input order for ties by construction.
- Compile.Run: the scripts file write is not threaded into the file snapshot. Nothing later reads it.
- Compile.Run: writes the compose file of the corrected `Compile.ComposeToWrite`, which puts the proxy inside an existing `services` object (see Findings). `Compile.ComposeToWriteAsWritten` keeps the code's placement.
- Compile.ProxyServiceAdded: says nothing when the fragments' `services` is truthy but not an object (a string, a number, `true` or a list). Docker compose rejects such a file whatever is added to it.
- ComposeArgs.RunRoundTrip, ExecRoundTrip and LogsRoundTrip decode at the level of parts. The shell re-splits the joined text, so a value with a space is not recovered from it.
- ComposeArgs: a string flag that is unset and one set to `""` are both modelled as `""`. An unset integer flag is modelled as `0`. The source treats both the same.
- DotEnv.ParseValueText: the modelled JSON has integers only, so `1.5` or `1e3` reads as a string. The read-merge-write of `compile` then writes `X=1.5` back as `X="1.5"`, where the code writes `X=1.5` (and `X=1000` for `1e3`). An integer beyond 2^53 is kept exact, where the code writes back the nearest double.
- SwitchEnv.Run: the prompt answers are parameters. Writing the YAML file and the follow-up `pull-secrets` and `compile` commands are left out.
- SwitchEnv.Run: the configuration loader turns `services` and `environment` into objects keyed by name (an absent list gives `{}`). The model takes their values as lists.
- The compose commands' execution, their output and `execSync` options are left out. Only the command text is modelled.

## Findings

| source | as written | input that shows it | evidently intended | confidence | as-written member | corrected member |
|---|---|---|---|---|---|---|
| src/commands/compile.ts:163-174 | `devctl-proxy` is assigned at the top level of the merged compose, which is wrapped in `{services: …}` only when it has no truthy `services` | fragments `{services: {web: {…}}}` with `proxy.enabled: true`: the file gets `services: {web}` and a top-level `devctl-proxy`, a key docker compose does not accept there | the proxy is one of the compose services in both layouts | medium, not executed | Compile.ProxyBesideServices | Compile.ProxyServiceAdded |
