/**
  LanguagePack::Ruby as a class. Its instance variables are fields: the
  memoised version (@ruby_version_run, @ruby_version, @ruby_version_env_var),
  the memoised paths (@slug_vendor_bundler, @ruby_install_binstub_path,
  @ruby_install_libstub_path) and the memoised spec names (@bundler_gems). The
  process environment ENV, the profile directives handed to the base class and
  the trace of side effects are fields too. Everything the pack learns from
  outside is the constant `world`.

  A method that can raise returns `Raised` (or `raised == true`); a raise leaves
  the fields as the source leaves them at that point.
*/
module LanguagePack {
  import opened Wrappers
  import opened RubyStrings
  import opened Inputs
  import opened BuildEnv
  import opened Steps
  import V = RubyVersion

  const RUBY_VERSION_VAR := "RUBY_VERSION"
  const BUNDLE_WITHOUT := "BUNDLE_WITHOUT"

  /**
    The whole of compile as a function of the world, the environment on entry, the probe
    actions the version resolution still has to record (`pending`) and the version it
    settles on: remove_vendor_bundle, install_ruby, setup_language_pack_environment,
    setup_profiled, then build_bundler and run_assets_precompile_rake_task inside allow_git.
  */
  function CompileStep(w: World, env0: Env, pending: seq<Action>, version: Option<string>): Step {
    var head := RemovalActions(w) + [MakeDirs(V.VENDOR_DIR)] + pending;
    if version.None? then Step(head, true)
    else
      var installed := head + InstallActions(V.BuildRubyPath(V.VersionNumber(version.value)), version.value, w.rubyBinEntries);
      var bundler := V.VendorBundlerFor(version);
      if bundler.None? then Step(installed, true)
      else
        var b := BundlerStep(w, V.SlugVendorRuby(version), BundleWithout(Lookup(env0, BUNDLE_WITHOUT)), bundler);
        if b.raised then Step(installed + b.actions, true)
        else Step(installed + b.actions + RakeActions(w.rakeTaskDefined), false)
  }

  /** compile fails exactly when the version is nil, it has no number, Gemfile.lock is missing or the install fails. */
  lemma CompileRaises(w: World, env0: Env, pending: seq<Action>, version: Option<string>)
    ensures CompileStep(w, env0, pending, version).raised
        <==> version.None? || V.VersionNumber(version.value).None? || w.lockfile.None? || !w.installSucceeded
  {
    if version.Some? && V.VendorBundlerFor(version).Some? {
      var b := V.VendorBundlerFor(version);
      BundlerRaises(w, V.SlugVendorRuby(version), BundleWithout(Lookup(env0, BUNDLE_WITHOUT)), b);
    }
  }

  /** A successful compile ends with the bundler step followed by the rake task, with the install pipe before the precompile. */
  lemma CompileStageOrder(w: World, env0: Env, pending: seq<Action>, version: Option<string>)
    requires !CompileStep(w, env0, pending, version).raised
    ensures var c := CompileStep(w, env0, pending, version).actions;
      var b := BundlerStep(w, V.SlugVendorRuby(version), BundleWithout(Lookup(env0, BUNDLE_WITHOUT)), V.VendorBundlerFor(version)).actions;
      var r := RakeActions(w.rakeTaskDefined);
      && |b| + |r| <= |c|
      && c[..|RemovalActions(w)|] == RemovalActions(w)
      && c[|c| - |r| - |b|..] == b + r
  {
    var c := CompileStep(w, env0, pending, version).actions;
    var b := BundlerStep(w, V.SlugVendorRuby(version), BundleWithout(Lookup(env0, BUNDLE_WITHOUT)), V.VendorBundlerFor(version)).actions;
    var r := RakeActions(w.rakeTaskDefined);
    var installed := RemovalActions(w) + [MakeDirs(V.VENDOR_DIR)] + pending
                     + InstallActions(V.BuildRubyPath(V.VersionNumber(version.value)), version.value, w.rubyBinEntries);
    assert c == installed + (b + r);
    assert installed[..|RemovalActions(w)|] == RemovalActions(w);
  }

  /** Without Gemfile.lock the version cannot be resolved, so compile stops inside install_ruby,
      right after creating vendor/, and never reaches the lockfile error of build_bundler. */
  lemma CompileWithoutLockfile(w: World, env0: Env)
    requires w.lockfile.None?
    ensures V.Resolve(LockVersion(w), Lookup(env0, RUBY_VERSION_VAR), w.probeStdout) == V.Unparseable
    ensures CompileStep(w, env0, [], None) == Step(RemovalActions(w) + [MakeDirs("vendor")], true)
  {
  }

  /** Appending nothing leaves a trace as it is. */
  lemma AppendEmpty<T>(s: seq<T>)
    ensures s + [] == s
  {
  }

  /** Regrouping appended traces. The solver does not apply the associativity of `+` or the
      empty append on its own, so the methods below call these two lemmas where a trace is regrouped. */
  lemma AppendAssoc<T>(a: seq<T>, b: seq<T>, c: seq<T>)
    ensures a + (b + c) == a + b + c
  {
  }

  class Ruby {
    const world: World
    /** What the first evaluation of ruby_version arrives at. The ENV branch of line 168 is never
        taken (RubyVersion.ResolveIgnoresEnv), so this is fixed by the world alone. */
    ghost const resolution: V.Resolution
    /** @ruby_version once ruby_version has run; None when running it raised. */
    ghost const resolved: Option<string>
    /** ruby_version_number of `resolved` (None also when `resolved` is None). */
    ghost const number: Option<string>
    /** slug_vendor_bundler for `resolved`; None when computing it raises. */
    ghost const bundlerPath: Option<string>

    /** ENV */
    var env: Env
    /** @ruby_version_run */
    var versionRun: bool
    /** @ruby_version */
    var version: Option<string>
    /** @ruby_version_env_var */
    var versionFromEnv: bool
    /** @slug_vendor_bundler */
    var vendorBundler: Option<string>
    /** @ruby_install_binstub_path */
    var binstub: Option<string>
    /** @ruby_install_libstub_path */
    var libstub: Option<string>
    /** @bundler_gems */
    var bundlerGems: Option<seq<string>>
    /** set_env_default / set_env_override calls, in order. */
    var profile: seq<Directive>
    /** Side effects, in order. */
    var trace: seq<Action>

    /** The ghost constants are the version and the names derived from it. Each tie is stated for
        the value the name is computed from: the single-point quantifiers (`forall v | resolved == Some(v)`)
        mean the same as plain equalities, but the solver instantiates them only where a proof mentions
        that value, which keeps the proofs of the methods below small. */
    ghost predicate Derived() {
      && (forall lock | lock == LockVersion(world) :: resolution == V.Resolve(lock, None, world.probeStdout))
      && resolved == V.VersionOf(resolution)
      && (resolved.None? ==> number.None?)
      && (forall v | resolved == Some(v) :: number == V.VersionNumber(v))
      && (number.None? ==> bundlerPath.None?)
      && (forall n | number == Some(n) :: bundlerPath == Some(V.SlugVendorBundler(n)))
    }

    /** Every memo is unset until the version has been computed, and agrees with what it memoises;
        @ruby_version_env_var is never set. */
    ghost predicate Valid()
      reads this`versionRun, this`version, this`versionFromEnv, this`vendorBundler, this`binstub, this`libstub,
            this`bundlerGems
    {
      && Derived()
      && (versionRun ==> version == resolved)
      && (!versionRun ==> version.None? && vendorBundler.None? && binstub.None? && libstub.None?)
      && !versionFromEnv
      && (vendorBundler.Some? ==> vendorBundler == bundlerPath)
      && (binstub.Some? ==> binstub == Some(V.SlugVendorRuby(resolved) + "/bin"))
      && (libstub.Some? ==> libstub == Some(V.SlugVendorRuby(resolved) + "/lib"))
      && (bundlerGems.Some? ==> world.lockfile.Some? && bundlerGems.value == world.lockfile.value.specNames)
    }

    /** A pack that has not computed anything yet. */
    ghost predicate Fresh()
      reads this`versionRun, this`bundlerGems
    {
      !versionRun && bundlerGems.None?
    }

    /** What the first evaluation of ruby_version yields in the current environment. */
    ghost function Resolution(): V.Resolution
      reads this`env
    {
      V.Resolve(LockVersion(world), Lookup(env, RUBY_VERSION_VAR), world.probeStdout)
    }

    /** The probe actions the version still has to record: none once it is memoised. */
    ghost function PendingActions(): seq<Action>
      reads this`versionRun
    {
      if !versionRun && resolution.FromProbe? then ProbeActions(world) else []
    }

    /** This call computed the version for the first time, and that computation raised. */
    twostate predicate VersionRaised()
      reads this`versionRun
    {
      !old(versionRun) && resolved.None?
    }

    constructor (world: World, env: Env)
      ensures this.world == world && this.env == env
      ensures Valid() && Fresh() && profile == [] && trace == []
    {
      this.world := world;
      var res := V.Resolve(LockVersion(world), None, world.probeStdout);
      var v := V.VersionOf(res);
      resolution := res;
      resolved := v;
      number := if v.None? then None else V.VersionNumber(v.value);
      bundlerPath := V.VendorBundlerFor(v);
      this.env := env;
      versionRun := false;
      version := None;
      versionFromEnv := false;
      vendorBundler := None;
      binstub := None;
      libstub := None;
      bundlerGems := None;
      profile := [];
      trace := [];
    }

    /** ruby_version: computed once, from the environment of the first call, then returned from
        the memo without consulting the lockfile, ENV or the probe again; a raise on the first
        call leaves the memo nil. */
    method RubyVersion() returns (r: Outcome<Option<string>>)
      requires Valid()
      modifies this`versionRun, this`version, this`versionFromEnv, this`trace
      ensures Valid() && versionRun
      ensures !old(versionRun) ==> version == V.VersionOf(old(Resolution()))
      ensures trace == old(trace) + old(PendingActions())
      ensures r == if VersionRaised() then Raised else Ok(version)
    {
      if versionRun {
        return Ok(version);
      }
      ghost var res := Resolution();
      V.ResolveIgnoresEnv(LockVersion(world), Lookup(env, RUBY_VERSION_VAR), world.probeStdout);
      versionRun := true;
      var lockVersion := LockVersion(world);
      if lockVersion.None? {
        // File.read raises on a missing Gemfile.lock; nil.chomp raises NoMethodError
        return Raised;
      }
      version := Some(V.NormalizeLockVersion(lockVersion.value));
      if MatchesVersionPattern(version.value) {
        return Ok(version);
      }
      var fromEnv := Lookup(env, RUBY_VERSION_VAR);
      // `@ruby_version.nil?` is false here: version was just assigned a string
      if fromEnv.Some? && version.value == V.NO_VERSION_SPECIFIED {
        version := fromEnv;
        versionFromEnv := true;
        // line 165 never yields "No ruby version specified"
        V.NormalizedNeverNoVersion(lockVersion.value);
        assert false;
      } else {
        trace := trace + ProbeActions(world);
        version := Some(V.NormalizeProbe(world.probeStdout));
      }
      return Ok(version);
    }

    /** ruby_version_number: the last field of the version; nil.split raises. */
    method RubyVersionNumber() returns (r: Outcome<Option<string>>)
      requires Valid()
      modifies this`versionRun, this`version, this`versionFromEnv, this`trace
      ensures Valid() && versionRun
      ensures trace == old(trace) + old(PendingActions())
      ensures r == if resolved.None? then Raised else Ok(number)
    {
      var v := RubyVersion();
      if v.Raised? || v.value.None? {
        return Raised;
      }
      return Ok(V.VersionNumber(v.value.value));
    }

    /** slug_vendor_ruby */
    method SlugVendorRuby() returns (r: Outcome<string>)
      requires Valid()
      modifies this`versionRun, this`version, this`versionFromEnv, this`trace
      ensures Valid() && versionRun
      ensures trace == old(trace) + old(PendingActions())
      ensures r == if VersionRaised() then Raised else Ok(V.SlugVendorRuby(resolved))
    {
      var v := RubyVersion();
      if v.Raised? {
        return Raised;
      }
      return Ok(V.SlugVendorRuby(v.value));
    }

    /** build_ruby_path */
    method BuildRubyPath() returns (r: Outcome<string>)
      requires Valid()
      modifies this`versionRun, this`version, this`versionFromEnv, this`trace
      ensures Valid() && versionRun
      ensures trace == old(trace) + old(PendingActions())
      ensures r == if resolved.None? then Raised else Ok(V.BuildRubyPath(number))
    {
      var n := RubyVersionNumber();
      if n.Raised? {
        return Raised;
      }
      return Ok(V.BuildRubyPath(n.value));
    }

    /** slug_vendor_bundler: memoised with `||=`, so a raise leaves it unset. */
    method SlugVendorBundler() returns (r: Outcome<string>)
      requires Valid()
      modifies this`versionRun, this`version, this`versionFromEnv, this`trace, this`vendorBundler
      ensures Valid() && versionRun
      ensures trace == old(trace) + old(PendingActions())
      ensures vendorBundler == bundlerPath
      ensures r == if bundlerPath.Some? then Ok(bundlerPath.value) else Raised
    {
      if vendorBundler.Some? {
        return Ok(vendorBundler.value);
      }
      var n := RubyVersionNumber();
      if n.Raised? || n.value.None? {
        // nil.sub raises NoMethodError
        return Raised;
      }
      vendorBundler := Some(V.SlugVendorBundler(n.value.value));
      return Ok(vendorBundler.value);
    }

    /** default_path */
    method DefaultPath() returns (r: Outcome<string>)
      requires Valid()
      modifies this`versionRun, this`version, this`versionFromEnv, this`trace, this`vendorBundler
      ensures Valid() && versionRun
      ensures trace == old(trace) + old(PendingActions())
      ensures vendorBundler == bundlerPath
      ensures r == if bundlerPath.Some? then Ok(BuildEnv.DefaultPath(bundlerPath.value)) else Raised
    {
      var b := SlugVendorBundler();
      if b.Raised? {
        return Raised;
      }
      return Ok(BuildEnv.DefaultPath(b.value));
    }

    /** default_config_vars */
    method DefaultConfigVars() returns (r: Outcome<seq<(string, string)>>)
      requires Valid()
      modifies this`versionRun, this`version, this`versionFromEnv, this`trace, this`vendorBundler
      ensures Valid() && versionRun
      ensures trace == old(trace) + old(PendingActions())
      ensures vendorBundler == bundlerPath
      ensures r == if bundlerPath.Some? then Ok(BuildEnv.DefaultConfigVars(bundlerPath.value)) else Raised
    {
      var path := DefaultPath();
      if path.Raised? {
        return Raised;
      }
      var b := SlugVendorBundler();
      return Ok([(LANG, DEFAULT_LANG), (PATH, path.value), (GEM_PATH, b.value), (GEM_HOME, "/tmp/gems")]);
    }

    /** ruby_install_binstub_path */
    method RubyInstallBinstubPath() returns (r: Outcome<string>)
      requires Valid()
      modifies this`versionRun, this`version, this`versionFromEnv, this`trace, this`binstub
      ensures Valid() && versionRun
      ensures trace == old(trace) + old(PendingActions())
      ensures r == if VersionRaised() then Raised else Ok(V.SlugVendorRuby(resolved) + "/bin")
      ensures binstub == if VersionRaised() then None else Some(V.SlugVendorRuby(resolved) + "/bin")
    {
      if binstub.Some? {
        return Ok(binstub.value);
      }
      var s := SlugVendorRuby();
      if s.Raised? {
        return Raised;
      }
      binstub := Some(s.value + "/bin");
      return Ok(binstub.value);
    }

    /** ruby_install_libstub_path */
    method RubyInstallLibstubPath() returns (r: Outcome<string>)
      requires Valid()
      modifies this`versionRun, this`version, this`versionFromEnv, this`trace, this`libstub
      ensures Valid() && versionRun
      ensures trace == old(trace) + old(PendingActions())
      ensures r == if VersionRaised() then Raised else Ok(V.SlugVendorRuby(resolved) + "/lib")
      ensures libstub == if VersionRaised() then None else Some(V.SlugVendorRuby(resolved) + "/lib")
    {
      if libstub.Some? {
        return Ok(libstub.value);
      }
      var s := SlugVendorRuby();
      if s.Raised? {
        return Raised;
      }
      libstub := Some(s.value + "/lib");
      return Ok(libstub.value);
    }

    /** setup_ruby_install_env */
    method SetupRubyInstallEnv() returns (raised: bool)
      requires Valid()
      modifies this`versionRun, this`version, this`versionFromEnv, this`trace, this`binstub, this`libstub, this`env
      ensures Valid() && versionRun
      ensures trace == old(trace) + old(PendingActions())
      ensures raised == VersionRaised()
      ensures binstub == if raised then None else Some(V.SlugVendorRuby(resolved) + "/bin")
      ensures libstub == if raised then None else Some(V.SlugVendorRuby(resolved) + "/lib")
      ensures raised ==> env == old(env)
      ensures !raised ==> env == RubyInstallEnv(old(env), V.SlugVendorRuby(resolved) + "/bin",
                                                world.expandPath(V.SlugVendorRuby(resolved) + "/lib"))
    {
      var bin := RubyInstallBinstubPath();
      if bin.Raised? {
        return true;
      }
      env := env[PATH := bin.value + ":" + Interpolate(Lookup(env, PATH))];
      var lib := RubyInstallLibstubPath();
      assert lib.Ok?;  // the version is memoised by now
      env := env[LD_LIBRARY_PATH := world.expandPath(lib.value) + ":" + Interpolate(Lookup(env, LD_LIBRARY_PATH))];
      return false;
    }

    /** The `each` of setup_language_pack_environment: `ENV[key] ||= value` for every pair, in order. */
    method ApplyConfigDefaults(vars: seq<(string, string)>)
      modifies this`env
      ensures env == ApplyDefaults(old(env), vars)
    {
      var i := 0;
      while i < |vars|
        invariant 0 <= i <= |vars|
        invariant env == ApplyDefaults(old(env), vars[..i])
      {
        assert vars[..i + 1][..i] == vars[..i];
        env := SetDefault(env, vars[i].0, vars[i].1);
        i := i + 1;
      }
      assert vars[..|vars|] == vars;
    }

    /** setup_language_pack_environment */
    method SetupLanguagePackEnvironment() returns (raised: bool)
      requires Valid()
      modifies this`versionRun, this`version, this`versionFromEnv, this`trace, this`binstub, this`libstub, this`env,
               this`vendorBundler
      ensures Valid() && versionRun
      ensures trace == old(trace) + old(PendingActions())
      ensures vendorBundler == bundlerPath
      ensures raised == bundlerPath.None?
      ensures binstub == if VersionRaised() then None else Some(V.SlugVendorRuby(resolved) + "/bin")
      ensures libstub == if VersionRaised() then None else Some(V.SlugVendorRuby(resolved) + "/lib")
      ensures !raised ==> env == LanguagePackEnv(old(env), V.SlugVendorRuby(resolved),
                                                 world.expandPath(V.SlugVendorRuby(resolved) + "/lib"), bundlerPath.value)
      ensures raised && VersionRaised() ==> env == old(env)
      ensures raised && !VersionRaised() ==> env == RubyInstallEnv(old(env), V.SlugVendorRuby(resolved) + "/bin",
                                                                   world.expandPath(V.SlugVendorRuby(resolved) + "/lib"))
    {
      raised := SetupRubyInstallEnv();
      if raised {
        return;
      }
      raised := ApplyConfigVars();
    }

    /** Lines 198-203 of setup_language_pack_environment, once setup_ruby_install_env has succeeded:
        the `||=` defaults, then GEM_HOME and PATH overridden. */
    method ApplyConfigVars() returns (raised: bool)
      requires Valid() && versionRun
      modifies this`versionRun, this`version, this`versionFromEnv, this`trace, this`binstub, this`env, this`vendorBundler
      ensures Valid() && versionRun
      ensures trace == old(trace)
      ensures vendorBundler == bundlerPath
      ensures raised == bundlerPath.None?
      ensures binstub == if raised then old(binstub) else Some(V.SlugVendorRuby(resolved) + "/bin")
      ensures raised ==> env == old(env)
      ensures !raised ==> env == ApplyDefaults(old(env), BuildEnv.DefaultConfigVars(bundlerPath.value))
                                   [GEM_HOME := bundlerPath.value]
                                   [PATH := V.SlugVendorRuby(resolved) + "/bin" + ":" + BuildEnv.DefaultPath(bundlerPath.value)]
    {
      var configVars := DefaultConfigVars();
      if configVars.Raised? {
        return true;
      }
      var vars := configVars.value;
      ApplyConfigDefaults(vars);
      var bundler := SlugVendorBundler();
      env := env[GEM_HOME := bundler.value];
      var bin := RubyInstallBinstubPath();
      // config_vars["PATH"] is the second entry of the hash
      env := env[PATH := bin.value + ":" + vars[1].1];
      return false;
    }

    /** setup_profiled: three directives, or none if slug_vendor_bundler raises on line 208. */
    method SetupProfiled() returns (raised: bool)
      requires Valid()
      modifies this`versionRun, this`version, this`versionFromEnv, this`trace, this`vendorBundler, this`profile
      ensures Valid() && versionRun
      ensures trace == old(trace) + old(PendingActions())
      ensures vendorBundler == bundlerPath
      ensures raised == bundlerPath.None?
      ensures raised ==> profile == old(profile)
      ensures !raised ==> profile == old(profile) + ProfileDirectives(bundlerPath.value)
    {
      var bundler := SlugVendorBundler();
      if bundler.Raised? {
        return true;
      }
      profile := profile + [Default(GEM_PATH, "$HOME/" + bundler.value)];
      profile := profile + [Default(LANG, DEFAULT_LANG)];
      // line 210 reads the memo set on line 208
      profile := profile + [Override(PATH, "$HOME/bin:$HOME/" + bundler.value + "/bin:$PATH")];
      return false;
    }

    /** The first half of allow_git: `ENV.delete("GIT_DIR")`, returning the deleted value. */
    method SuppressGitDir() returns (saved: Option<string>)
      modifies this`env
      ensures saved == Lookup(old(env), GIT_DIR)
      ensures env == old(env) - {GIT_DIR}
    {
      saved := Lookup(env, GIT_DIR);
      env := env - {GIT_DIR};
    }

    /** The second half of allow_git: `ENV["GIT_DIR"] = saved`, deleting the key when saved is nil. */
    method RestoreGitDir(saved: Option<string>)
      modifies this`env
      ensures env == Assign(old(env), GIT_DIR, saved)
    {
      if saved.Some? {
        env := env[GIT_DIR := saved.value];
      } else {
        env := env - {GIT_DIR};
      }
    }

    /** Lines 82-130 of build_bundler, which only record actions. */
    method InstallGems(slugRuby: string, without: string) returns (raised: bool)
      modifies this`trace
      ensures trace == old(trace) + GemsStep(world, slugRuby, without).actions
      ensures raised == GemsStep(world, slugRuby, without).raised
    {
      trace := trace + [Run(GemInstall(slugRuby))];
      if world.lockfile.None? {
        trace := trace + [Error(LockfileRequired)];
        return true;
      }
      RunBundleInstall(slugRuby, without);
      if world.installSucceeded {
        trace := trace + [Run(BundleClean)];
        trace := trace + [CacheStore(".bundle")];
        trace := trace + [CacheStore(V.VENDOR_DIR + "/bundle")];
        return false;
      } else {
        trace := trace + [Error(InstallFailed)];
        return true;
      }
    }

    /** Lines 92-115 of build_bundler: the caches, libyaml and the piped `bundle install`. */
    method RunBundleInstall(slugRuby: string, without: string)
      modifies this`trace
      ensures trace == old(trace) + InstallPrelude(world, slugRuby, without)
    {
      trace := trace + [CacheLoad(".bundle")];
      trace := trace + [Run(BundleVersion(slugRuby))];
      trace := trace + [CacheLoad(V.VENDOR_DIR + "/bundle")];
      // Dir.mktmpdir("libyaml-") and install_libyaml
      var libyamlDir := LibyamlDir(world.libyamlTmpdir);
      trace := trace + [MakeDirs(libyamlDir)];
      trace := trace + [Run(LibyamlFetch(world.vendorUrl))];
      var yamlInclude := world.expandPath(libyamlDir + "/include");
      var yamlLib := world.expandPath(libyamlDir + "/lib");
      trace := trace + [Run(Pwd)];
      var pwd := Chomp(world.pwdOutput);
      // bundle_command with " --deployment" appended, behind env_vars
      trace := trace + [Pipe(BundleInstall(pwd, yamlInclude, yamlLib, slugRuby, without))];
    }

    /** build_bundler */
    method BuildBundler() returns (raised: bool)
      requires Valid()
      modifies this`versionRun, this`version, this`versionFromEnv, this`trace, this`vendorBundler
      ensures Valid() && versionRun
      ensures VersionRaised() ==> raised && trace == old(trace) + old(PendingActions())
      ensures var step := BundlerStep(world, V.SlugVendorRuby(resolved), BundleWithout(Lookup(env, BUNDLE_WITHOUT)), bundlerPath);
        !VersionRaised() ==> raised == step.raised && trace == old(trace) + old(PendingActions()) + step.actions
    {
      var slugRuby := SlugVendorRuby();
      if slugRuby.Raised? {
        return true;
      }
      ghost var t1 := trace;
      var without := BundleWithout(Lookup(env, BUNDLE_WITHOUT));
      ghost var gems := GemsStep(world, slugRuby.value, without);
      raised := InstallGems(slugRuby.value, without);
      if raised {
        return;
      }
      ghost var t2 := trace;
      var bundler := SlugVendorBundler();
      AppendEmpty(t2);
      if bundler.Raised? {
        return true;
      }
      // FileUtils.rm_rf on line 125
      trace := trace + [RemoveTree(bundler.value + "/cache")];
      AppendAssoc(t1, gems.actions, [RemoveTree(bundler.value + "/cache")]);
      return false;
    }

    /** rake_task_defined?("assets:precompile") and the precompile it guards; the task's own failure raises nothing. */
    method RunAssetsPrecompileRakeTask()
      modifies this`trace
      ensures trace == old(trace) + RakeActions(world.rakeTaskDefined)
    {
      trace := trace + [Run(RakeDryRun("assets:precompile"))];
      if world.rakeTaskDefined {
        trace := trace + [Pipe(Precompile)];
      }
    }

    /** gem_is_bundled?: reading Gemfile.lock raises when it is missing. */
    method GemIsBundled(gem: string) returns (r: Outcome<bool>)
      requires Valid()
      modifies this`bundlerGems
      ensures Valid()
      ensures r == if world.lockfile.None? then Raised else Ok(gem in world.lockfile.value.specNames)
      ensures bundlerGems == if world.lockfile.None? then old(bundlerGems) else Some(world.lockfile.value.specNames)
    {
      if bundlerGems.None? {
        if world.lockfile.None? {
          return Raised;
        }
        bundlerGems := Some(world.lockfile.value.specNames);
      }
      return Ok(gem in bundlerGems.value);
    }

    /** add_node_js_binary */
    method AddNodeJsBinary() returns (r: Outcome<seq<string>>)
      requires Valid()
      modifies this`bundlerGems
      ensures Valid()
      ensures r == if world.lockfile.None? then Raised else Ok(NodeJsBinaries(world.lockfile.value.specNames))
      ensures bundlerGems == if world.lockfile.None? then old(bundlerGems) else Some(world.lockfile.value.specNames)
    {
      var bundled := GemIsBundled("execjs");
      if bundled.Raised? {
        return Raised;
      }
      return Ok(if bundled.value then [NODE_JS_BINARY_PATH] else []);
    }

    /** install_ruby: returns true, or raises when build_ruby_path does. */
    method InstallRuby() returns (raised: bool)
      requires Valid()
      modifies this`versionRun, this`version, this`versionFromEnv, this`trace
      ensures Valid() && versionRun
      ensures raised == resolved.None?
      ensures raised ==> trace == old(trace) + [MakeDirs(V.VENDOR_DIR)] + old(PendingActions())
      ensures !raised ==> trace == old(trace) + [MakeDirs(V.VENDOR_DIR)] + old(PendingActions())
                                   + InstallActions(V.BuildRubyPath(number), resolved.value, world.rubyBinEntries)
    {
      ghost var pending := PendingActions();
      trace := trace + [MakeDirs(V.VENDOR_DIR)];
      ghost var t1 := trace;
      var buildRubyPath := BuildRubyPath();
      if buildRubyPath.Raised? {
        return true;
      }
      ghost var t2 := trace;
      assert t2 == t1 + pending;
      var v := RubyVersion();
      CopyRuby(buildRubyPath.value, v.value.value);
      return false;
    }

    /** The copy and the links of install_ruby, once build_ruby_path and ruby_version are known. */
    method CopyRuby(buildRubyPath: string, version: string)
      modifies this`trace
      ensures trace == old(trace) + InstallActions(buildRubyPath, version, world.rubyBinEntries)
    {
      trace := trace + [Run(CopyRuntime(buildRubyPath, version)), MakeDirs(BIN_DIR)];
      // the glob of slug_vendor_ruby + "/bin/*"
      LinkBinaries(world.rubyBinEntries);
    }

    /** The `each` of install_ruby: one `ln -s` per executable, in glob order. */
    method LinkBinaries(entries: seq<string>)
      modifies this`trace
      ensures trace == old(trace) + LinkActions(entries)
    {
      var i := 0;
      while i < |entries|
        invariant 0 <= i <= |entries|
        invariant trace == old(trace) + LinkActions(entries[..i])
      {
        assert entries[..i + 1][..i] == entries[..i];
        trace := trace + [Run(Link(entries[i]))];
        i := i + 1;
      }
      assert entries[..|entries|] == entries;
    }

    /** remove_vendor_bundle */
    method RemoveVendorBundle()
      modifies this`trace
      ensures trace == old(trace) + RemovalActions(world)
    {
      if world.vendorBundleCheckedIn {
        trace := trace + [RemoveTree(V.VENDOR_DIR + "/bundle")];
      }
    }

    /** compile: the stages in order, the bundler and rake steps inside allow_git. Its frame leaves
        out @bundler_gems, so a caller knows that compile leaves that memo as it was. */
    method Compile() returns (raised: bool)
      requires Valid()
      modifies this`versionRun, this`version, this`versionFromEnv, this`vendorBundler, this`binstub, this`libstub,
               this`env, this`profile, this`trace
      ensures Valid() && versionRun
      ensures var c := CompileStep(world, old(env), old(PendingActions()), resolved);
        trace == old(trace) + c.actions && raised == c.raised
      ensures !raised ==> env == LanguagePackEnv(old(env), V.SlugVendorRuby(resolved),
                                                 world.expandPath(V.SlugVendorRuby(resolved) + "/lib"), bundlerPath.value)
      ensures bundlerPath.Some? ==> profile == old(profile) + ProfileDirectives(bundlerPath.value)
      ensures bundlerPath.None? ==> profile == old(profile)
      ensures resolved.None? ==> env == old(env)
      ensures resolved.Some? && bundlerPath.None? ==>
        env == RubyInstallEnv(old(env), V.SlugVendorRuby(resolved) + "/bin", world.expandPath(V.SlugVendorRuby(resolved) + "/lib"))
      ensures raised && bundlerPath.Some? ==>
        env == LanguagePackEnv(old(env), V.SlugVendorRuby(resolved),
                               world.expandPath(V.SlugVendorRuby(resolved) + "/lib"), bundlerPath.value) - {GIT_DIR}
      ensures world.lockfile.None? ==> raised && trace == old(trace) + RemovalActions(world) + [MakeDirs(V.VENDOR_DIR)]
    {
      ghost var t0 := trace;
      ghost var e0 := env;
      ghost var pending := PendingActions();
      ghost var head := RemovalActions(world) + [MakeDirs(V.VENDOR_DIR)] + pending;
      if world.lockfile.None? {
        // the version cannot be resolved, so install_ruby raises
        assert V.Resolve(LockVersion(world), None, world.probeStdout) == V.Unparseable;
      }
      AppendAssoc(t0, RemovalActions(world), [MakeDirs(V.VENDOR_DIR)]);
      AppendAssoc(t0, RemovalActions(world) + [MakeDirs(V.VENDOR_DIR)], pending);
      RemoveVendorBundle();
      raised := InstallRuby();
      if raised {
        if world.lockfile.None? {
          AppendEmpty(t0 + RemovalActions(world) + [MakeDirs(V.VENDOR_DIR)]);
        }
        return;
      }
      ghost var installed := head + InstallActions(V.BuildRubyPath(number), resolved.value, world.rubyBinEntries);
      AppendAssoc(t0, head, InstallActions(V.BuildRubyPath(number), resolved.value, world.rubyBinEntries));
      ghost var t2 := trace;
      assert t2 == t0 + installed;
      raised := SetupLanguagePackEnvironment();
      AppendEmpty(t2);
      if raised {
        return;
      }
      BuildTimeEnvironment(e0, V.SlugVendorRuby(resolved), world.expandPath(V.SlugVendorRuby(resolved) + "/lib"),
                           bundlerPath.value, BUNDLE_WITHOUT);
      raised := SetupProfiled();
      AppendEmpty(t2);
      ghost var b := BundlerStep(world, V.SlugVendorRuby(resolved), BundleWithout(Lookup(e0, BUNDLE_WITHOUT)), bundlerPath);
      AppendAssoc(t0, installed, b.actions);
      AppendAssoc(t0, installed + b.actions, RakeActions(world.rakeTaskDefined));
      raised := AllowGitBuild();
    }

    /** allow_git around build_bundler and run_assets_precompile_rake_task: GIT_DIR is deleted for
        the block and assigned back after it; a raise skips the assignment. */
    method AllowGitBuild() returns (raised: bool)
      requires Valid() && versionRun && bundlerPath.Some?
      modifies this`versionRun, this`version, this`versionFromEnv, this`trace, this`vendorBundler, this`env
      ensures Valid() && versionRun
      ensures var b := BundlerStep(world, V.SlugVendorRuby(resolved), BundleWithout(Lookup(old(env), BUNDLE_WITHOUT)), bundlerPath);
        && raised == b.raised
        && (raised ==> trace == old(trace) + b.actions && env == old(env) - {GIT_DIR})
        && (!raised ==> trace == old(trace) + b.actions + RakeActions(world.rakeTaskDefined) && env == old(env))
    {
      ghost var e0 := env;
      ghost var t0 := trace;
      var saved := SuppressGitDir();
      assert Lookup(env, BUNDLE_WITHOUT) == Lookup(e0, BUNDLE_WITHOUT);
      raised := BuildBundler();
      AppendEmpty(t0);
      if !raised {
        RunAssetsPrecompileRakeTask();
        RestoreGitDir(saved);
        DeleteThenRestore(e0);
      }
    }
  }
}
