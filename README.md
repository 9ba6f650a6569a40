# FireCalc desktop host — a Dafny model

FireCalc ships as an Electron application. Its privileged host process
(`web/electron-app/src/main.js`) decides at start-up whether to relaunch itself under
X11, classifies the build (dev build, build tier), builds the Content-Security-Policy
header, answers the renderer's file-system requests over IPC behind an allow-list of four
user directories, serves the `firecalcafpma://` scheme from the bundled `dist-app`
directory, and gates the update checks on the build kind. During development the UI's
Vite server (`modules/ui/vite.config.js`) runs two middlewares: one rewrites absolute
file-system URLs to Vite's `/@fs` form, the other replaces the inline base64 source map of
the Scala.js `fastopt` bundles by a reference to an external `.map` file.

This project models those decisions and transforms and proves what they guarantee.

- **Path handling.** Node's `path.posix` `resolve`, `normalize` and `join` are modelled as a stack walk over '/'-separated segments (`PosixPath`).
- **Strings.** The JavaScript string operations the code relies on are modelled in `Text`: `includes`, `startsWith`, `endsWith`, `trim`, ASCII `toUpperCase`, `split`, `join` and `Buffer.byteLength`.
- **File storage.** The storage the handlers reach is a tree of directories and text files keyed by resolved segment lists (`FileStore`). The handler object is a class whose methods update that tree in place (`CapabilityBroker.Broker`).
- **Dev-server middlewares.** The rewrite middleware is a method that updates the request's URL in a loop. The source-map fix is a class whose `End` method concatenates the buffered chunks in a loop and sends the transformed body (`DevServer`).
- **Inputs.** Everything the process reads from the outside world is a parameter:
  - the platform and the environment;
  - the contents of `/etc/os-release` and of the `.dev-build` and `.build-env` markers;
  - the working directory, the four user directories and the application path;
  - the dialog results and the release feed's answer;
  - `decodeURIComponent`;
  - storage faults.

Three behaviours of the code are worth stating outright:

- **Traversal requests on the scheme are redirected, not refused.** A scheme request for `/../../etc/passwd` is redirected (301) to `dist-app/etc/passwd` inside the bundle: `path.normalize` stops the ".." segments at the root (`ResourceScheme.TraversalRedirectedIntoBundle`). No absolute request path is redirected outside the bundle directory (`ResourceScheme.AbsoluteRequestRedirects`). A relative pathname that the sanitising strip reduces to "..", such as ".." or "../..", names the application directory itself and is refused with 403 (`ResourceScheme.ParentOfBundleRefused`).
- **Manual update checks are not serialised.** Every call queries the feed, even while an earlier check is still running (`UpdateGate.CheckForUpdates`).
- **The allow-list guard compares characters.** It compares resolved paths character by character, not segment by segment. A sibling whose name merely extends an allowed directory's last name is therefore admitted. The model keeps this behaviour and proves it (`PathGuard.SiblingNameAdmitted`).

## Model

| member | source | states |
|---|---|---|
| StartupGate.ShouldRelaunch | web/electron-app/src/main.js:33-50 | relaunch exactly when the platform is linux, the marker variable is unset or empty, os-release was read and names `ID=debian` and version 10 or 11, and the upper-cased desktop and session variables contain GNOME and WAYLAND; an unreadable os-release never relaunches |
| StartupGate.RelaunchEnv | web/electron-app/src/main.js:61-67 | the child environment has the parent's keys plus the four overrides, keeps every other variable's value, and sets the marker to "true" and the three display variables to "x11" |
| StartupGate.Decide | web/electron-app/src/main.js:60-67 | the process relaunches exactly when the relaunch condition holds, and then with the relaunch environment |
| StartupGate.NoRelaunchLoop | web/electron-app/src/main.js:33-67 | the relaunched child, started with the child environment, never relaunches again |
| StartupGate.ChildIsNotWayland | web/electron-app/src/main.js:45-66 | independently of the marker, the child environment is no longer a Wayland session |
| StartupGate.DesktopCaseIgnored | web/electron-app/src/main.js:44-45 | "gnome" and "wayland" written in any letter case inside the variables are recognised |
| StartupGate.UnsetDesktopNoRelaunch | web/electron-app/src/main.js:44-46 | a missing or empty desktop variable never leads to a relaunch |
| StartupGate.RemovesSchemaDir | web/electron-app/src/main.js:51-59 | the schema directory is removed exactly when it is set and contains "firecalc-schemas-" |
| StartupGate.TemplateDirRemoved | web/electron-app/src/main.js:51-59 | every directory created from the "firecalc-schemas-" template passes the removal guard |
| BuildEnvironment.IsDevBuild | web/electron-app/src/main.js:225-235 | dev build exactly when unpackaged, or `ELECTRON_IS_DEV` is "true", or the marker is "true" surrounded only by whitespace; a missing marker counts as not dev |
| BuildEnvironment.MarkerReadsTrue | web/electron-app/src/main.js:231 | the trimmed marker equals "true" exactly when the text is "true" padded with whitespace |
| BuildEnvironment.MarkerWithNewline | web/electron-app/src/main.js:231 | a marker file holding "true" and a newline marks a dev build |
| BuildEnvironment.BuildEnv | web/electron-app/src/main.js:241-263 | "dev" when the marker cannot be read; otherwise the marker's content without leading or trailing whitespace |
| BuildEnvironment.TierOf | web/electron-app/src/main.js:265-266 | staging, production or development tier, each exactly on its condition |
| BuildEnvironment.Classify | web/electron-app/src/main.js:225-266 | the three signals as computed, and never staging and production at once |
| BuildEnvironment.SignalsCanDisagree | web/electron-app/src/main.js:225-266 | an unpackaged run can carry a production tier, and a packaged non-dev build without `.build-env` falls back to the development tier |
| ContentSecurityPolicy.ScriptSources | web/electron-app/src/main.js:623-625 | `'unsafe-eval'` and `'unsafe-inline'` are allowed exactly for dev builds; `'self'` always comes first |
| ContentSecurityPolicy.IfConfigured | web/electron-app/src/main.js:642-650 | a backend address is listed exactly when it is not empty |
| ContentSecurityPolicy.ConnectSources | web/electron-app/src/main.js:639 | the connect sources always start with the app itself and the 1.1.1.1 probe |
| ContentSecurityPolicy.BuildConnectSources | web/electron-app/src/main.js:638-653 | the sources built by successive pushes are the tier's connect sources |
| ContentSecurityPolicy.NoLocalServersOutsideDevelopment | web/electron-app/src/main.js:642-646 | the staging and production tiers admit no local server: only self, the probe and that tier's backend |
| ContentSecurityPolicy.DevelopmentSources | web/electron-app/src/main.js:646-650 | the development tier admits local http, ws and wss servers, then the dev backend when configured |
| ContentSecurityPolicy.UnconfiguredBackendOmitted | web/electron-app/src/main.js:644-645 | an empty production backend leaves only self and the probe |
| ContentSecurityPolicy.ProductionConnectDirective | web/electron-app/src/main.js:644-652 | the rendered production connect directive with a configured backend, character for character |
| ContentSecurityPolicy.Directives | web/electron-app/src/main.js:619-654 | six directives in header order, every one starting with `'self'`, with the script and connect sources of the build |
| ContentSecurityPolicy.RenderAll | web/electron-app/src/main.js:619-654 | each directive rendered in place, in order |
| ContentSecurityPolicy.PolicyCarriesScriptDirective | web/electron-app/src/main.js:656 | the "; "-joined header contains the script directive of the build |
| ContentSecurityPolicy.WithPolicy | web/electron-app/src/main.js:658-663 | every other response header is kept; the header named exactly `Content-Security-Policy` is set to the one policy, replacing a server value under that exact name (a server header spelled in another letter case stays beside it) |
| PathGuard.AllowedDirs | web/electron-app/src/main.js:526-531 | exactly the documents, downloads, user-data and desktop directories |
| PathGuard.IsPathAllowed | web/electron-app/src/main.js:533-536 | allowed exactly when some allowed directory's resolved path is a character prefix of the resolved path |
| PathGuard.VerdictDependsOnResolvedForm | web/electron-app/src/main.js:534 | a path and its resolved form get the same verdict |
| PathGuard.NestedPathsAllowed | web/electron-app/src/main.js:533-536 | every path nested under an allowed directory, and the directory itself, is allowed |
| PathGuard.SiblingNameAdmitted | web/electron-app/src/main.js:535 | a sibling whose name extends an allowed directory's last name is a different directory but is admitted |
| PathGuard.ParentsClimb | web/electron-app/src/main.js:534 | k ".." segments after a directory climb exactly k levels |
| PathGuardExamples.TraversalRejected | web/electron-app/src/main.js:533-536 | `/home/u/Documents/../../etc/passwd` resolves to `/home/etc/passwd` and is refused |
| PathGuardExamples.DocumentAdmitted | web/electron-app/src/main.js:533-536 | a file directly inside the documents directory is admitted |
| PosixPath.ResolveIdempotent | web/electron-app/src/main.js:534 | resolving a resolved path changes nothing |
| PosixPath.WalkAppend | web/electron-app/src/main.js:534 | walking a concatenation of segments is walking one part, then the other |
| CapabilityBroker.HandleRead | web/electron-app/src/main.js:538-548 | a refused path gets the access-denied error; content is returned exactly when the path is allowed, storage is healthy and the resolved path is a file, and it is that file's content |
| CapabilityBroker.HandleWrite | web/electron-app/src/main.js:549-559 | a refused path gets the access-denied error; the write succeeds exactly when the path is allowed, storage is healthy and the tree admits a file there; success leaves the file holding the content; any failure leaves the tree unchanged |
| CapabilityBroker.HandleList | web/electron-app/src/main.js:560-570 | a refused path gets the access-denied error; a listing comes back exactly when the path is allowed and names a directory, and it holds that directory's entries |
| CapabilityBroker.HandleCreateDir | web/electron-app/src/main.js:571-581 | a refused path gets the access-denied error; creation succeeds exactly when the path is allowed, storage is healthy and neither the path nor any ancestor is a file; success adds the directory and all its ancestors; any failure leaves the tree unchanged |
| CapabilityBroker.FaultsReported | web/electron-app/src/main.js:538-581 | a storage fault on an allowed path is returned as the error text and changes nothing, for all four handlers |
| CapabilityBroker.WriteThenReadBack | web/electron-app/src/main.js:538-559 | after a successful write, reading the same path returns what was written |
| CapabilityBroker.CreateExistingDir | web/electron-app/src/main.js:571-581 | creating an allowed directory that already exists succeeds and changes nothing |
| CapabilityBroker.HandlersKeepValid | web/electron-app/src/main.js:549-581 | writing and creating directories keep the tree well formed |
| CapabilityBroker.OpenFileDialog | web/electron-app/src/main.js:582-592 | a canceled dialog gives the canceled reply; otherwise success with the first chosen path |
| CapabilityBroker.SaveDefaultPath | web/electron-app/src/main.js:595 | the given file name when it is set and not empty, otherwise "project.firecalc.yaml" |
| CapabilityBroker.SaveFileDialog | web/electron-app/src/main.js:593-603 | a canceled dialog gives the canceled reply; otherwise success with the chosen path |
| CapabilityBroker.ChosenPathStillGuarded | web/electron-app/src/main.js:538-592 | the open dialog hands back a path outside every allowed directory, and the read handler still refuses it |
| CapabilityBroker.Broker.ReadFile | web/electron-app/src/main.js:538-548 | the reply is the read handler's reply on the current tree |
| CapabilityBroker.Broker.WriteFile | web/electron-app/src/main.js:549-559 | the new tree and the reply are the write handler's, and the tree stays well formed |
| CapabilityBroker.Broker.ListDir | web/electron-app/src/main.js:560-570 | the reply is the list handler's reply on the current tree |
| CapabilityBroker.Broker.CreateDir | web/electron-app/src/main.js:571-581 | the new tree and the reply are the create-dir handler's, and the tree stays well formed |
| FileStore.Volume.Write | web/electron-app/src/main.js:554 | a write fails exactly when the target is the root or a directory or its parent directory is missing; on failure nothing changes; on success only that file changes |
| FileStore.Volume.MakeDirs | web/electron-app/src/main.js:576 | recursive mkdir fails exactly when the target is a file or lies below one; on success it adds every ancestor directory |
| FileStore.MakeDirsIdempotent | web/electron-app/src/main.js:576 | creating the same directories twice is creating them once |
| FileStore.WriteThenRead | web/electron-app/src/main.js:554 | after a successful write the file reads back as written, other readable entries read as before, and the directories are unchanged |
| FileStore.WriteThenList | web/electron-app/src/main.js:554-565 | after a successful write the file is listed in its directory |
| ResourceScheme.StripParents | web/electron-app/src/main.js:670 | what is removed is a leading run of ".."-and-slash (or backslash) groups, and what remains does not start with another, so the run removed is the longest; an absolute path is untouched |
| ResourceScheme.StripParentsOfRun | web/electron-app/src/main.js:670 | whatever run of ".." groups leads a path whose remainder starts with none, the strip removes exactly that run |
| ResourceScheme.SchemeResponse | web/electron-app/src/main.js:667-683 | 403 exactly when the joined path does not start with the bundle directory's path; otherwise a 301 redirect to `file://` and the joined path |
| ResourceScheme.AbsoluteRequestRedirects | web/electron-app/src/main.js:667-683 | every absolute request path is redirected to its normalised names inside the bundle directory |
| ResourceScheme.TraversalRedirectedIntoBundle | web/electron-app/src/main.js:670-681 | `/../../etc/passwd` is redirected to `dist-app/etc/passwd` inside the bundle |
| ResourceScheme.ParentOfBundleRefused | web/electron-app/src/main.js:670-677 | every request path the strip reduces to ".." names the application directory and is refused with 403 |
| ResourceScheme.TwoParentsRefused | web/electron-app/src/main.js:670-677 | the request path "../.." is refused with 403 like ".." |
| ResourceScheme.JoinUnderThenUp | web/electron-app/src/main.js:671 | joining a directory, a name and ".." gives the directory back |
| ResourceScheme.NormalizeAbsolute | web/electron-app/src/main.js:670 | an absolute path normalises to "/" followed by its remaining names |
| UpdateGate.CheckForUpdates | web/electron-app/src/main.js:487-523 | the feed is queried exactly outside dev builds; dev builds show the disabled notice; the latest-version dialog appears exactly when the feed reports the running version; the error dialog appears exactly when the query fails, carrying its message; otherwise no dialog |
| UpdateGate.DevIgnoresFeed | web/electron-app/src/main.js:488-497 | in a dev build the feed's answer does not affect anything |
| UpdateGate.FailureNamesError | web/electron-app/src/main.js:513-521 | the failure dialog's detail contains the error's message |
| UpdateGate.CheckForUpdatesHandler | web/electron-app/src/main.js:605-608 | the IPC handler runs the manual check and always replies with success |
| UpdateGate.Setup | web/electron-app/src/main.js:276-287 | listeners and the automatic check exactly outside dev builds; the feed is configured exactly outside dev builds when configuring it does not throw |
| UpdateGate.AutomaticCheck | web/electron-app/src/main.js:688-690 | the automatic check queries the feed exactly when it is scheduled, and shows no dialog whatever the feed answers |
| DevServer.RewriteWith | modules/ui/vite.config.js:56-61 | a URL that no entry matches is kept unchanged |
| DevServer.RewriteWithFirst | modules/ui/vite.config.js:56-61 | the first matching entry rewrites the URL; the earlier entries are passed over |
| DevServer.RewriteRequest | modules/ui/vite.config.js:54-64 | a present, non-empty URL becomes its rewrite by the table; an absent or empty one is left alone |
| DevServer.RewriteCases | modules/ui/vite.config.js:49-53 | `/file:///X` becomes `/@fs/X`, `/home/...` and `/Users/...` get `/@fs` in front, anything else is kept |
| DevServer.EntriesExclusive | modules/ui/vite.config.js:49-53 | no URL matches two entries of the table |
| DevServer.RewrittenIsFs | modules/ui/vite.config.js:49-53 | every rewritten URL starts with `/@fs/` |
| DevServer.RewriteIdempotent | modules/ui/vite.config.js:49-61 | rewriting a rewritten URL changes nothing |
| DevServer.MapExclusionRedundant | modules/ui/vite.config.js:76-77 | the middleware buffers exactly the URLs inside the fastopt directory ending in ".js"; the ".js.map" exclusion never decides anything |
| DevServer.FirstMatch | modules/ui/vite.config.js:103-106 | the leftmost position where the comment pattern matches at or after the start, or none |
| DevServer.ReplaceFirst | modules/ui/vite.config.js:103-106 | without a match the body is unchanged; otherwise only the leftmost match is replaced |
| DevServer.FixBody | modules/ui/vite.config.js:93-112 | the body is sent unchanged exactly when it lacks the inline-map marker; the transform throws exactly when the marker is present and the file name cannot be decoded; otherwise the comment is replaced by the external reference |
| DevServer.TrailingInlineMapReplaced | modules/ui/vite.config.js:103-106 | a bundle ending in a line break and the inline map comment gets exactly that comment replaced by the `.map` reference |
| DevServer.MarkerWithoutFinalComment | modules/ui/vite.config.js:96-109 | a marker that is not in a line-final comment still sends the body, unchanged, with a Content-Length header |
| DevServer.BufferedResponse.Write | modules/ui/vite.config.js:83-86 | the chunk is buffered and the call reports success |
| DevServer.BufferedResponse.End | modules/ui/vite.config.js:88-113 | a non-empty final chunk is buffered, and what is sent is the transform of all chunks concatenated |
| Text.LastPiece | modules/ui/vite.config.js:98-99 | the last piece of the URL: a suffix without separators, preceded by a separator or the whole URL |
| Text.Utf8LengthConcat | modules/ui/vite.config.js:108 | the byte length of a concatenation is the sum of the byte lengths |
| Text.ContainsOccurs | web/electron-app/src/main.js:39-41 | `includes` holds exactly when the pattern occurs at some index |
| Text.TrimPadded | web/electron-app/src/main.js:231 | trimming whitespace padding off a text that neither starts nor ends with whitespace gives that text back |
| Text.SplitJoin | modules/ui/vite.config.js:98 | splitting a join of separator-free pieces gives the pieces back |
| Text.UpperKeepsContains | web/electron-app/src/main.js:44-45 | upper-casing keeps every contained piece, upper-cased |

## Left out

- Buffers: the response chunks are modelled as strings. UTF-8 decoding of partial chunks is left out, and so is the fact that an empty `Buffer` final chunk is truthy in JavaScript.
- The real file system is left out: permissions, symlinks, and ".." resolved by the operating system rather than lexically. The error texts follow Node's "CODE: description, syscall 'path'" form only approximately.
- `readdir` order: a listing is the set of entry names.
- URL parsing: the scheme handler takes the URL's pathname as its input, as the URL parser returns it (still percent-encoded). `decodeURIComponent` is an input function that yields None where it would throw.
- Case mapping: `toUpperCase` is modelled for ASCII letters only.
- Timers and asynchrony: the 3-second delay of the automatic check, promise scheduling, and how concurrent IPC calls interleave.
- The updater: the event handlers and their dialogs, download and install, and the GitHub release feed itself. The feed's answer is an input.
- Process control: spawning the relaunched child and quitting the parent.
- The fontconfig and GSettings set-up cascade is left out. Only the removal guard of the temporary schema directory is modelled; its creation and copying are not.
- The window, the menu, the permission handler, logging and `get-app-version` are left out. None of them decides anything the model states.
- `preload.cjs`, `vite-env.js`, `modules/ui/main.js` and the static part of the Vite configuration are not part of this model.
- FileStore.WriteThenRead: states that other entries read as before only for entries that were readable before the write. Entries that failed before may fail with a different error afterwards: a file written where a missing path's parent is turns ENOENT into ENOTDIR.
- HandleRead: storage is keyed on the lexically resolved path, while `fs.readFile` receives the raw path. A raw path that names a file but ends in "/" or "/." fails in Node with ENOTDIR; the model reads the file.
- HandleWrite: storage is keyed on the lexically resolved path, so writing "<dir>/new/" creates the file "new" in the model, where Node fails with EISDIR. A storage fault is modelled as striking before any effect; a real write that fails after opening (ENOSPC, EIO) can leave the file truncated or partly written.
- HandleCreateDir: a storage fault is modelled as striking before any effect; a real recursive `mkdir` that fails partway keeps the ancestor directories it already made.
- FaultsReported: "changes nothing" holds because modelled faults strike before any effect; real write and mkdir faults can leave partial effects, as the HandleWrite and HandleCreateDir lines say.
- Storage that breaks the tree's well-formedness is left out: in the model a file and a directory never share a path, and every entry sits in an existing directory.
