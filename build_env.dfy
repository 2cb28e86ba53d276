/**
  The process environment as a map, the updates the language pack makes to it
  while building (setup_ruby_install_env, setup_language_pack_environment), the
  GIT_DIR save and restore of allow_git, and the directives written for the
  running application (setup_profiled).
*/
module BuildEnv {
  import opened Wrappers
  import opened RubyStrings

  /** ENV: Ruby's ENV holds string values only; assigning nil deletes the key. */
  type Env = map<string, string>

  const PATH := "PATH"
  const LD_LIBRARY_PATH := "LD_LIBRARY_PATH"
  const LANG := "LANG"
  const GEM_PATH := "GEM_PATH"
  const GEM_HOME := "GEM_HOME"
  const GIT_DIR := "GIT_DIR"
  const DEFAULT_LANG := "en_US.UTF-8"

  /** ENV[key]: nil when the key is absent. */
  function Lookup(env: Env, key: string): Option<string> {
    if key in env then Some(env[key]) else None
  }

  /** `ENV[key] = value`, where a nil value deletes the key. */
  function Assign(env: Env, key: string, value: Option<string>): Env {
    if value.Some? then env[key := value.value] else env - {key}
  }

  /** `ENV[key] ||= value`: ENV values are strings, never false, so only an absent key is set. */
  function SetDefault(env: Env, key: string, value: string): Env {
    if key in env then env else env[key := value]
  }

  /** `pairs.each { |key, value| ENV[key] ||= value }` over an ordered hash. */
  function ApplyDefaults(env: Env, pairs: seq<(string, string)>): Env
    decreases |pairs|
  {
    if pairs == [] then env
    else
      var last := pairs[|pairs| - 1];
      SetDefault(ApplyDefaults(env, pairs[..|pairs| - 1]), last.0, last.1)
  }

  /** Keys that no pair names keep their value. */
  lemma {:induction false} ApplyDefaultsKeeps(env: Env, pairs: seq<(string, string)>, key: string)
    requires forall j :: 0 <= j < |pairs| ==> pairs[j].0 != key
    ensures Lookup(ApplyDefaults(env, pairs), key) == Lookup(env, key)
    decreases |pairs|
  {
    if pairs != [] {
      ApplyDefaultsKeeps(env, pairs[..|pairs| - 1], key);
    }
  }

  /** A key that some pair names keeps its old value if it had one, and otherwise gets the
      value of the first pair naming it. */
  lemma {:induction false} ApplyDefaultsFirst(env: Env, pairs: seq<(string, string)>, key: string, i: nat)
    requires i < |pairs| && pairs[i].0 == key
    requires forall j :: 0 <= j < i ==> pairs[j].0 != key
    ensures Lookup(ApplyDefaults(env, pairs), key) == if key in env then Some(env[key]) else Some(pairs[i].1)
    decreases |pairs|
  {
    var init := pairs[..|pairs| - 1];
    if i == |pairs| - 1 {
      ApplyDefaultsKeeps(env, init, key);
    } else {
      ApplyDefaultsFirst(env, init, key, i);
    }
  }

  // ---------------------------------------------------------------------------
  // Build-time environment

  /** default_path */
  function DefaultPath(bundler: string): string {
    "bin:" + bundler + "/bin:/usr/local/bin:/usr/bin:/bin"
  }

  /** default_config_vars, in the hash's insertion order. */
  function DefaultConfigVars(bundler: string): seq<(string, string)> {
    [(LANG, DEFAULT_LANG), (PATH, DefaultPath(bundler)), (GEM_PATH, bundler), (GEM_HOME, "/tmp/gems")]
  }

  /** setup_ruby_install_env: prepend the vendored ruby's bin to PATH and its expanded lib
      directory to LD_LIBRARY_PATH; an unset variable interpolates as "". */
  function RubyInstallEnv(env: Env, binstub: string, libstubExpanded: string): Env {
    var withPath := env[PATH := binstub + ":" + Interpolate(Lookup(env, PATH))];
    withPath[LD_LIBRARY_PATH := libstubExpanded + ":" + Interpolate(Lookup(withPath, LD_LIBRARY_PATH))]
  }

  /** setup_language_pack_environment: the install env, the `||=` defaults, then GEM_HOME and PATH overridden. */
  function LanguagePackEnv(env: Env, slugRuby: string, libstubExpanded: string, bundler: string): Env {
    var installed := RubyInstallEnv(env, slugRuby + "/bin", libstubExpanded);
    var defaulted := ApplyDefaults(installed, DefaultConfigVars(bundler));
    defaulted[GEM_HOME := bundler][PATH := slugRuby + "/bin" + ":" + DefaultPath(bundler)]
  }

  /** What setup_ruby_install_env does to each key. */
  lemma RubyInstallEnvEffect(env: Env, binstub: string, lib: string, key: string)
    ensures var r := RubyInstallEnv(env, binstub, lib);
      && Lookup(r, PATH) == Some(binstub + ":" + Interpolate(Lookup(env, PATH)))
      && Lookup(r, LD_LIBRARY_PATH) == Some(lib + ":" + Interpolate(Lookup(env, LD_LIBRARY_PATH)))
      && (key != PATH && key != LD_LIBRARY_PATH ==> Lookup(r, key) == Lookup(env, key))
  {
  }

  /** What setup_language_pack_environment leaves in ENV: LANG and GEM_PATH only when absent,
      GEM_HOME the bundler path, PATH exactly the vendored bin plus default_path whatever it was,
      LD_LIBRARY_PATH prefixed, and every other key untouched. */
  lemma {:induction false} BuildTimeEnvironment(env: Env, slugRuby: string, lib: string, bundler: string, key: string)
    ensures var r := LanguagePackEnv(env, slugRuby, lib, bundler);
      && Lookup(r, LANG) == (if LANG in env then Some(env[LANG]) else Some(DEFAULT_LANG))
      && Lookup(r, GEM_PATH) == (if GEM_PATH in env then Some(env[GEM_PATH]) else Some(bundler))
      && Lookup(r, GEM_HOME) == Some(bundler)
      && Lookup(r, PATH) == Some(slugRuby + "/bin:" + DefaultPath(bundler))
      && Lookup(r, LD_LIBRARY_PATH) == Some(lib + ":" + Interpolate(Lookup(env, LD_LIBRARY_PATH)))
      && (key !in {LANG, GEM_PATH, GEM_HOME, PATH, LD_LIBRARY_PATH} ==> Lookup(r, key) == Lookup(env, key))
  {
    var installed := RubyInstallEnv(env, slugRuby + "/bin", lib);
    var vars := DefaultConfigVars(bundler);
    RubyInstallEnvEffect(env, slugRuby + "/bin", lib, LANG);
    RubyInstallEnvEffect(env, slugRuby + "/bin", lib, GEM_PATH);
    RubyInstallEnvEffect(env, slugRuby + "/bin", lib, key);
    ApplyDefaultsFirst(installed, vars, LANG, 0);
    ApplyDefaultsFirst(installed, vars, GEM_PATH, 2);
    ApplyDefaultsKeeps(installed, vars, LD_LIBRARY_PATH);
    if key !in {LANG, GEM_PATH, GEM_HOME, PATH, LD_LIBRARY_PATH} {
      ApplyDefaultsKeeps(installed, vars, key);
    }
    assert slugRuby + "/bin" + ":" + DefaultPath(bundler) == slugRuby + "/bin:" + DefaultPath(bundler);
  }

  // ---------------------------------------------------------------------------
  // allow_git

  /** `ENV.delete(GIT_DIR)` followed by `ENV[GIT_DIR] = <the deleted value>` gives back ENV,
      including when GIT_DIR was absent (the deleted value is nil). */
  lemma DeleteThenRestore(env: Env)
    ensures Assign(env - {GIT_DIR}, GIT_DIR, Lookup(env, GIT_DIR)) == env
  {
  }

  /** What a block does: the environment it leaves behind, and whether an exception escaped it. */
  datatype BlockOutcome = BlockOutcome(env: Env, raised: bool)

  /** allow_git for an arbitrary block: delete GIT_DIR, run the block, assign the deleted value back.
      Without an `ensure`, an exception skips the assignment. */
  function AllowGit(env: Env, blk: Env -> BlockOutcome): BlockOutcome {
    var saved := Lookup(env, GIT_DIR);
    var inner := blk(env - {GIT_DIR});
    if inner.raised then inner else BlockOutcome(Assign(inner.env, GIT_DIR, saved), false)
  }

  /** The block sees no GIT_DIR; after a normal return GIT_DIR is back as it was (present with its
      value, or absent) and every other key is as the block left it; an exception leaves the block's
      environment, GIT_DIR included, as it was when the exception escaped. */
  lemma AllowGitScoping(env: Env, blk: Env -> BlockOutcome, key: string)
    ensures var o := AllowGit(env, blk);
      var inner := blk(env - {GIT_DIR});
      && Lookup(env - {GIT_DIR}, GIT_DIR).None?
      && o.raised == inner.raised
      && (!o.raised ==> Lookup(o.env, GIT_DIR) == Lookup(env, GIT_DIR))
      && (!o.raised && key != GIT_DIR ==> Lookup(o.env, key) == Lookup(inner.env, key))
      && (o.raised ==> o.env == inner.env)
  {
  }

  /** A block that leaves ENV alone: a normal return gives back ENV exactly, while an exception
      leaves GIT_DIR deleted. */
  lemma AllowGitUntouched(env: Env, blk: Env -> BlockOutcome)
    requires forall e :: blk(e).env == e
    ensures !blk(env - {GIT_DIR}).raised ==> AllowGit(env, blk) == BlockOutcome(env, false)
    ensures blk(env - {GIT_DIR}).raised ==> AllowGit(env, blk).env == env - {GIT_DIR} && GIT_DIR !in AllowGit(env, blk).env
  {
    DeleteThenRestore(env);
  }

  // ---------------------------------------------------------------------------
  // Profile directives for the running application

  /** set_env_default / set_env_override calls of the base language pack. */
  datatype Directive = Default(key: string, value: string) | Override(key: string, value: string)

  /** setup_profiled */
  function ProfileDirectives(bundler: string): seq<Directive> {
    [ Default(GEM_PATH, "$HOME/" + bundler),
      Default(LANG, DEFAULT_LANG),
      Override(PATH, "$HOME/bin:$HOME/" + bundler + "/bin:$PATH") ]
  }

  /** The meaning of the directives when the application starts: a default is written only
      if the platform has not set the key, an override always (shell expansion of $HOME
      and $PATH is not modelled; values stay as written). */
  function ApplyProfile(env: Env, ds: seq<Directive>): Env
    decreases |ds|
  {
    if ds == [] then env
    else
      var e := ApplyProfile(env, ds[..|ds| - 1]);
      match ds[|ds| - 1]
      case Default(k, v) => SetDefault(e, k, v)
      case Override(k, v) => e[k := v]
  }

  /** The profile leaves platform-set GEM_PATH and LANG alone, always sets PATH, and touches nothing else. */
  lemma ProfileEnvironment(env: Env, bundler: string, key: string)
    ensures var r := ApplyProfile(env, ProfileDirectives(bundler));
      && Lookup(r, GEM_PATH) == (if GEM_PATH in env then Some(env[GEM_PATH]) else Some("$HOME/" + bundler))
      && Lookup(r, LANG) == (if LANG in env then Some(env[LANG]) else Some(DEFAULT_LANG))
      && Lookup(r, PATH) == Some("$HOME/bin:$HOME/" + bundler + "/bin:$PATH")
      && (key !in {GEM_PATH, LANG, PATH} ==> Lookup(r, key) == Lookup(env, key))
  {
    var ds := ProfileDirectives(bundler);
    assert ds[..1][..0] == [];
    assert ds[..2][..1] == ds[..1];
    assert ds[..3][..2] == ds[..2];
    var e1 := SetDefault(env, GEM_PATH, "$HOME/" + bundler);
    var e2 := SetDefault(e1, LANG, DEFAULT_LANG);
    assert ApplyProfile(env, ds[..1]) == e1;
    assert ApplyProfile(env, ds[..2]) == e2;
    assert ApplyProfile(env, ds) == e2[PATH := "$HOME/bin:$HOME/" + bundler + "/bin:$PATH"];
  }
}
