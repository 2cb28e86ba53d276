/**
  The side effects of the language pack as a trace of abstract actions: commands
  handed to run/pipe, directories created or removed, cache loads and stores, and
  fatal errors. This module builds the command strings and gives, as pure
  functions of their inputs, the actions each step records: the version probe of
  bootstrap_bundler, install_ruby, build_bundler and run_assets_precompile_rake_task.
*/
module Steps {
  import opened Wrappers
  import opened RubyStrings
  import opened Inputs
  import V = RubyVersion

  const LIBYAML_VERSION := "0.1.4"
  const LIBYAML_PATH := "libyaml-" + LIBYAML_VERSION
  const BUNDLER_VERSION := "2.0.2"
  const BUNDLER_GEM_PATH := "bundler-" + BUNDLER_VERSION
  const NODE_VERSION := "0.4.7"
  const NODE_JS_BINARY_PATH := "node-" + NODE_VERSION
  const BIN_DIR := "bin"

  /** The groups skipped when BUNDLE_WITHOUT is unset. */
  const DEFAULT_WITHOUT := "development:test"
  const LOCKFILE_REQUIRED := "Gemfile.lock is required. Please run \"bundle install\" locally\nand commit your Gemfile.lock."
  const INSTALL_FAILED := "Failed to install gems via Bundler."
  const CLEAN_COMMAND := "bundle clean"
  const PWD_COMMAND := "pwd"
  const PRECOMPILE_COMMAND := "env PATH=$PATH:bin bundle exec rake assets:precompile 2>&1"

  /** A command handed to run or pipe, with the values it is built from; Text gives the shell line. */
  datatype Command =
    | GemInstall(slugRuby: string)
    | BundleVersion(slugRuby: string)
    | LibyamlFetch(vendorUrl: string)
    | Pwd
    | BundleInstall(pwd: string, yamlInclude: string, yamlLib: string, slugRuby: string, without: string)
    | BundleClean
    | BundlerFetch(vendorUrl: string)
    | PlatformProbe(bundlerPath: string)
    | CopyRuntime(buildRubyPath: string, version: string)
    | Link(binInVendor: string)
    | RakeDryRun(task: string)
    | Precompile

  /** The two messages build_bundler hands to `error`. */
  datatype Failure = LockfileRequired | InstallFailed

  /** One recorded side effect. Run, RunStdout and Pipe are the base class's `run`, `run_stdout` and
      `pipe`; `Error` is its `error`, which aborts the build. */
  datatype Action =
    | MakeDirs(path: string)
    | RemoveTree(path: string)
    | Run(command: Command)
    | RunStdout(command: Command)
    | Pipe(command: Command)
    | CacheLoad(path: string)
    | CacheStore(path: string)
    | Error(failure: Failure)

  /** The actions of one step, and whether an exception escaped it. */
  datatype Step = Step(actions: seq<Action>, raised: bool)

  // ---------------------------------------------------------------------------
  // Command strings

  function GemInstallCommand(slugRuby: string): string {
    slugRuby + "/bin/gem install bundler -v=" + BUNDLER_VERSION + " --no-document"
  }

  /** `ENV["BUNDLE_WITHOUT"] || "development:test"`: any string, even "", is truthy. */
  function BundleWithout(setting: Option<string>): string {
    if setting.Some? then setting.value else DEFAULT_WITHOUT
  }

  /** The options of bundle_command (line 85): skipped groups, install path and binstub directory. */
  function BundleFlags(without: string): string {
    " --without " + without + " --path " + V.VENDOR_DIR + "/bundle --binstubs " + BIN_DIR + "/"
  }

  /** bundle_command as built on line 85 ... */
  function BundleCommand(slugRuby: string, without: string): string {
    slugRuby + "/bin/bundle install" + BundleFlags(without)
  }

  /** ... and after `+= " --deployment"`. */
  function DeploymentCommand(slugRuby: string, without: string): string {
    BundleCommand(slugRuby, without) + " --deployment"
  }

  function BundleVersionCommand(slugRuby: string): string {
    "env " + slugRuby + "/bin/bundle version"
  }

  function LibyamlDir(tmpdir: string): string {
    tmpdir + "/" + LIBYAML_PATH
  }

  function LibyamlFetchCommand(vendorUrl: string): string {
    "curl " + vendorUrl + "/" + LIBYAML_PATH + ".tgz -s -o - | tar xzf -"
  }

  /** env_vars: Gemfile and bundle config under the build directory, libyaml on the compiler paths. */
  function BundleEnvVars(pwd: string, yamlInclude: string, yamlLib: string): string {
    "env BUNDLE_GEMFILE=" + pwd + "/Gemfile BUNDLE_CONFIG=" + pwd + "/.bundle/config CPATH=" + yamlInclude
      + ":$CPATH CPPATH=" + yamlInclude + ":$CPPATH LIBRARY_PATH=" + yamlLib + ":$LIBRARY_PATH"
  }

  function InstallPipeCommand(envVars: string, bundleCommand: string): string {
    envVars + " " + bundleCommand + " --no-clean 2>&1"
  }

  function BundlerFetchCommand(vendorUrl: string): string {
    "curl " + vendorUrl + "/" + BUNDLER_GEM_PATH + ".tar.gz | tar -xz --strip-components=1"
  }

  function PlatformProbeCommand(bundlerPath: string): string {
    "GEM_PATH=" + bundlerPath + " " + bundlerPath + "/bin/bundle platform --ruby"
  }

  function CopyRubyCommand(buildRubyPath: string, version: string): string {
    "cp -R " + buildRubyPath + " " + V.VENDOR_DIR + "/" + version
  }

  function LinkCommand(binInVendor: string): string {
    "ln -s ../" + binInVendor + " " + BIN_DIR + "/"
  }

  function RakeDryRunCommand(task: string): string {
    "env PATH=$PATH bundle exec rake " + task + " --dry-run"
  }

  /** The shell line of each command. */
  function Text(c: Command): string {
    match c
    case GemInstall(slugRuby) => GemInstallCommand(slugRuby)
    case BundleVersion(slugRuby) => BundleVersionCommand(slugRuby)
    case LibyamlFetch(vendorUrl) => LibyamlFetchCommand(vendorUrl)
    case Pwd => PWD_COMMAND
    case BundleInstall(pwd, yamlInclude, yamlLib, slugRuby, without) =>
      InstallPipeCommand(BundleEnvVars(pwd, yamlInclude, yamlLib), DeploymentCommand(slugRuby, without))
    case BundleClean => CLEAN_COMMAND
    case BundlerFetch(vendorUrl) => BundlerFetchCommand(vendorUrl)
    case PlatformProbe(bundlerPath) => PlatformProbeCommand(bundlerPath)
    case CopyRuntime(buildRubyPath, version) => CopyRubyCommand(buildRubyPath, version)
    case Link(binInVendor) => LinkCommand(binInVendor)
    case RakeDryRun(task) => RakeDryRunCommand(task)
    case Precompile => PRECOMPILE_COMMAND
  }

  /** The text `error` prints. */
  function Message(f: Failure): string {
    match f
    case LockfileRequired => LOCKFILE_REQUIRED
    case InstallFailed => INSTALL_FAILED
  }

  // ---------------------------------------------------------------------------
  // Traces

  /** bootstrap_bundler fetching bundler into its tmpdir, then the `bundle platform --ruby` probe. */
  function ProbeActions(w: World): seq<Action> {
    [Run(BundlerFetch(w.vendorUrl)), RunStdout(PlatformProbe(w.bundlerTmpdir))]
  }

  /** remove_vendor_bundle */
  function RemovalActions(w: World): seq<Action> {
    if w.vendorBundleCheckedIn then [RemoveTree(V.VENDOR_DIR + "/bundle")] else []
  }

  /** One `ln -s` per entry of the vendored ruby's bin directory, in glob order. */
  function LinkActions(entries: seq<string>): (acts: seq<Action>)
    ensures |acts| == |entries|
    ensures forall k :: 0 <= k < |entries| ==> acts[k] == Run(Link(entries[k]))
    decreases |entries|
  {
    if entries == [] then []
    else LinkActions(entries[..|entries| - 1]) + [Run(Link(entries[|entries| - 1]))]
  }

  /** install_ruby once build_ruby_path is known: copy the runtime, create bin/, link its executables. */
  function InstallActions(buildRubyPath: string, version: string, entries: seq<string>): seq<Action> {
    [Run(CopyRuntime(buildRubyPath, version)), MakeDirs(BIN_DIR)] + LinkActions(entries)
  }

  /** The install command piped to the shell, for a given working directory and libyaml tmpdir. */
  function InstallPipe(w: World, slugRuby: string, without: string): Command {
    var libyamlDir := LibyamlDir(w.libyamlTmpdir);
    BundleInstall(Chomp(w.pwdOutput), w.expandPath(libyamlDir + "/include"), w.expandPath(libyamlDir + "/lib"), slugRuby, without)
  }

  /** What build_bundler records from the first cache_load to the piped `bundle install`, once Gemfile.lock exists. */
  function InstallPrelude(w: World, slugRuby: string, without: string): seq<Action> {
    [ CacheLoad(".bundle"),
      Run(BundleVersion(slugRuby)),
      CacheLoad(V.VENDOR_DIR + "/bundle"),
      MakeDirs(LibyamlDir(w.libyamlTmpdir)),
      Run(LibyamlFetch(w.vendorUrl)),
      Run(Pwd),
      Pipe(InstallPipe(w, slugRuby, without)) ]
  }

  /** What build_bundler does after a successful install: clean, store both caches. */
  const SUCCESS_ACTIONS: seq<Action> := [Run(BundleClean), CacheStore(".bundle"), CacheStore(V.VENDOR_DIR + "/bundle")]

  /** build_bundler up to line 124: install the bundler gem, check for Gemfile.lock, run the install,
      then clean and store the caches or report the failure. */
  function GemsStep(w: World, slugRuby: string, without: string): Step {
    var gem := [Run(GemInstall(slugRuby))];
    if w.lockfile.None? then Step(gem + [Error(LockfileRequired)], true)
    else
      var installed := gem + InstallPrelude(w, slugRuby, without);
      if !w.installSucceeded then Step(installed + [Error(InstallFailed)], true)
      else Step(installed + SUCCESS_ACTIONS, false)
  }

  /**
    build_bundler. `slugBundler` is what slug_vendor_bundler yields when line 125 evaluates it
    (None: it raises). The install's exit status is w.installSucceeded.
  */
  function BundlerStep(w: World, slugRuby: string, without: string, slugBundler: Option<string>): Step {
    var gems := GemsStep(w, slugRuby, without);
    if gems.raised then gems
    else if slugBundler.None? then Step(gems.actions, true)
    else Step(gems.actions + [RemoveTree(slugBundler.value + "/cache")], false)
  }

  /** run_assets_precompile_rake_task: the dry run, then the real task only if the dry run succeeded. */
  function RakeActions(taskDefined: bool): seq<Action> {
    [Run(RakeDryRun("assets:precompile"))] + if taskDefined then [Pipe(Precompile)] else []
  }

  /** add_node_js_binary on the lockfile's spec names. */
  function NodeJsBinaries(specNames: seq<string>): seq<string> {
    if "execjs" in specNames then [NODE_JS_BINARY_PATH] else []
  }

  // ---------------------------------------------------------------------------
  // Properties

  predicate NoPipe(acts: seq<Action>) { forall k :: 0 <= k < |acts| ==> !acts[k].Pipe? }
  predicate NoCacheStore(acts: seq<Action>) { forall k :: 0 <= k < |acts| ==> !acts[k].CacheStore? }

  /** BUNDLE_WITHOUT defaults to "development:test" and is otherwise taken verbatim. */
  lemma BundleWithoutDefault(setting: Option<string>)
    ensures setting.None? ==> BundleWithout(setting) == "development:test"
    ensures setting.Some? ==> BundleWithout(setting) == setting.value
  {
  }

  /** The options as the shell sees them. */
  lemma BundleFlagsText(without: string)
    ensures BundleFlags(without) == " --without " + without + " --path vendor/bundle --binstubs bin/"
  {
    var tail := " --path " + V.VENDOR_DIR + "/bundle --binstubs " + BIN_DIR + "/";
    assert tail == " --path vendor/bundle --binstubs bin/";
    assert BundleFlags(without) == " --without " + without + tail;
  }

  /** Regrouping the pieces of the piped command around the options (string concatenation is
      associative, but the solver needs the regrouping spelled out). */
  lemma PipeShape(envVars: string, pre: string, flags: string, dep: string, noClean: string)
    ensures envVars + " " + ((pre + flags) + dep) + noClean == (envVars + " " + pre) + flags + (dep + noClean)
  {
  }

  /** The piped install command carries the groups, the vendor path and the binstubs, and ends in
      --deployment and --no-clean. */
  lemma InstallFlags(w: World, slugRuby: string, without: string)
    ensures Contains(Text(InstallPipe(w, slugRuby, without)), " --without " + without + " --path vendor/bundle --binstubs bin/")
    ensures EndsWith(Text(InstallPipe(w, slugRuby, without)), " --deployment --no-clean 2>&1")
  {
    var libyamlDir := LibyamlDir(w.libyamlTmpdir);
    var envVars := BundleEnvVars(Chomp(w.pwdOutput), w.expandPath(libyamlDir + "/include"), w.expandPath(libyamlDir + "/lib"));
    var pre := slugRuby + "/bin/bundle install";
    var flags := BundleFlags(without);
    PipeShape(envVars, pre, flags, " --deployment", " --no-clean 2>&1");
    var post := " --deployment" + " --no-clean 2>&1";
    assert post == " --deployment --no-clean 2>&1";
    assert Text(InstallPipe(w, slugRuby, without)) == (envVars + " " + pre) + flags + post;
    BundleFlagsText(without);
    ContainsMiddle(envVars + " " + pre, flags, post);
    EndsWithConcat((envVars + " " + pre) + flags, post);
  }

  /** Without Gemfile.lock the build stops with the lockfile error right after installing bundler: no cache, no install. */
  lemma MissingLockfile(w: World, slugRuby: string, without: string, slugBundler: Option<string>)
    requires w.lockfile.None?
    ensures var s := BundlerStep(w, slugRuby, without, slugBundler);
      && s.raised
      && s.actions == [Run(GemInstall(slugRuby)), Error(LockfileRequired)]
      && Message(s.actions[1].failure) == "Gemfile.lock is required. Please run \"bundle install\" locally\nand commit your Gemfile.lock."
      && NoPipe(s.actions) && NoCacheStore(s.actions)
  {
  }

  /** A successful install is followed by exactly `bundle clean`, the two cache stores in order, and the removal of the gem cache. */
  lemma InstallSuccess(w: World, slugRuby: string, without: string, bundler: string)
    requires w.lockfile.Some? && w.installSucceeded
    ensures var s := BundlerStep(w, slugRuby, without, Some(bundler));
      && !s.raised
      && |s.actions| == 12
      && s.actions[7] == Pipe(InstallPipe(w, slugRuby, without))
      && s.actions[8..] == [Run(BundleClean), CacheStore(".bundle"), CacheStore("vendor/bundle"), RemoveTree(bundler + "/cache")]
      && NoPipe(s.actions[..7]) && NoCacheStore(s.actions[..8])
  {
    var s := BundlerStep(w, slugRuby, without, Some(bundler));
    var installed := [Run(GemInstall(slugRuby))] + InstallPrelude(w, slugRuby, without);
    assert s.actions == installed + SUCCESS_ACTIONS + [RemoveTree(bundler + "/cache")];
    assert s.actions[..8] == installed;
    assert V.VENDOR_DIR + "/bundle" == "vendor/bundle";
    assert s.actions[8..] == SUCCESS_ACTIONS + [RemoveTree(bundler + "/cache")];
  }

  /** A failed install stores no cache and ends in the Bundler error. */
  lemma InstallFailure(w: World, slugRuby: string, without: string, slugBundler: Option<string>)
    requires w.lockfile.Some? && !w.installSucceeded
    ensures var s := BundlerStep(w, slugRuby, without, slugBundler);
      && s.raised
      && s.actions[|s.actions| - 1] == Error(InstallFailed)
      && Message(s.actions[|s.actions| - 1].failure) == "Failed to install gems via Bundler."
      && NoCacheStore(s.actions)
      && exists k :: 0 <= k < |s.actions| && s.actions[k] == Pipe(InstallPipe(w, slugRuby, without))
  {
    var s := BundlerStep(w, slugRuby, without, slugBundler);
    assert s.actions[7] == Pipe(InstallPipe(w, slugRuby, without));
  }

  /** build_bundler raises exactly when Gemfile.lock is missing, the install fails, or slug_vendor_bundler raises on line 125. */
  lemma BundlerRaises(w: World, slugRuby: string, without: string, slugBundler: Option<string>)
    ensures BundlerStep(w, slugRuby, without, slugBundler).raised
        <==> w.lockfile.None? || !w.installSucceeded || slugBundler.None?
    ensures forall k :: 0 <= k < |BundlerStep(w, slugRuby, without, slugBundler).actions| - 1 ==>
              !BundlerStep(w, slugRuby, without, slugBundler).actions[k].Error?
  {
  }

  /** The real precompile runs iff the dry run reported the task, and the step never errors. */
  lemma RakeOnlyWhenDefined(taskDefined: bool)
    ensures (exists k :: 0 <= k < |RakeActions(taskDefined)| && RakeActions(taskDefined)[k] == Pipe(Precompile)) <==> taskDefined
    ensures forall k :: 0 <= k < |RakeActions(taskDefined)| ==> !RakeActions(taskDefined)[k].Error?
  {
    if taskDefined {
      assert RakeActions(taskDefined)[1] == Pipe(Precompile);
    }
  }

  /** node-0.4.7 is vendored exactly when execjs is in the bundle. */
  lemma NodeJsWhenExecjs(specNames: seq<string>)
    ensures NodeJsBinaries(specNames) == [] <==> "execjs" !in specNames
    ensures forall k :: 0 <= k < |NodeJsBinaries(specNames)| ==> NodeJsBinaries(specNames)[k] == "node-0.4.7"
  {
  }
}
