# LanguagePack::Ruby, modelled in Dafny

This project models the core of the Heroku Ruby buildpack: the class
`LanguagePack::Ruby` in `lib/language_pack/ruby.rb`. It covers four parts:

- **Ruby version resolution.** The version comes from the `RUBY VERSION` entry of
  `Gemfile.lock`, from `ENV['RUBY_VERSION']`, or from a `bundle platform --ruby` probe.
  It is normalised with Ruby's `chomp`, `sub` and `=~`, and memoised in
  `@ruby_version_run` / `@ruby_version`.
- **Directory names derived from the version.** These are `ruby_version_number`,
  `build_ruby_path`, `slug_vendor_ruby`, `slug_vendor_bundler`, `default_path` and
  `default_config_vars`.
- **Environment updates.** The build-time changes to `ENV`
  (`setup_ruby_install_env`, `setup_language_pack_environment`), the directives written
  for the running application (`setup_profiled`), and the removal and reassignment of
  `GIT_DIR` around the build (`allow_git`).
- **The build steps as a trace of actions.** These are `remove_vendor_bundle`,
  `install_ruby`, `build_bundler`, `run_assets_precompile_rake_task`, and `compile`, which
  strings them together. `gem_is_bundled?` and `add_node_js_binary` are modelled too.

Files:

- `wrappers.dfy`: `Option`, and `Outcome` (a value or an exception that escaped).
- `ruby_strings.dfy`: the Ruby string operations the class uses, written out exactly:
  - `chomp`;
  - `sub(/p\d+$/, '')` and `sub(/\d+$/, '0')`, with leftmost match and `$` also before a
    newline;
  - `sub(' ', '-')`;
  - the unanchored `=~ /(\w+-)?\d\.\d\.\d/`;
  - `split(/[- ]/).last`, which drops trailing empty fields;
  - `File.join`.

  Each regular-expression and split function gets a lemma stating what it computes, plus a
  reference definition where one helps (`LastFieldIsTailRun`). `Interpolate` (nil as "")
  and `JoinPath` are one-line definitions without lemmas of their own.
- `ruby_version.dfy`: the first evaluation of `ruby_version` as the pure function
  `Resolve`, and the derived names as functions.
- `build_env.dfy`: `ENV` as a `map<string, string>`. Covers `||=`, assignment of nil as
  deletion, the environment after setup, `allow_git` for an arbitrary block, and the
  profile directives.
- `steps.dfy`: commands as structured values (`Text` renders each as its shell line),
  the other actions, and the trace of each build step as a function of its inputs.
- `inputs.dfy`: everything the class learns from outside, as one value `World`. This
  includes:
  - the parsed lockfile;
  - the probe's stdout;
  - the temporary directories;
  - `File.expand_path`;
  - the `vendor/bundle` check;
  - the `bin/` glob;
  - `pwd`;
  - the exit statuses of `bundle install` and of the rake dry run.
- `language_pack.dfy`: the class `Ruby`.
  - Its fields are the instance variables, `ENV`, the profile directives and the trace.
  - Its methods are the Ruby methods.
  - Each method is proved against the functions above, and `Compile` against
    `CompileStep`.
  - An exception is `Raised` or `raised == true`, and it leaves the fields as Ruby leaves
    them at that point. For example, `@ruby_version_run` is already set when `chomp`
    raises on a nil lockfile version.

Two places where the code does not do what it evidently intends; the model follows the code:

- **The `ENV['RUBY_VERSION']` branch (lines 168-170) is never taken.** Line 168 compares the
  normalised lockfile value with "No ruby version specified" so that `ENV['RUBY_VERSION']`
  can take over. But line 165 has already turned the first space into `-`, so the comparison
  is always false, and `sub` never returns nil. `RubyVersion.ResolveNeverFromEnv` and
  `RubyVersion.UnspecifiedIgnoresEnv` prove that the probe decides instead.
- **`allow_git` has no `ensure`.** An exception from the block skips the assignment on
  line 271, so `GIT_DIR` stays deleted (`BuildEnv.AllowGitScoping`,
  `LanguagePack.Ruby.AllowGitBuild`).

## Model

The table lists the lemmas and methods, which carry the contracts. The specification
functions they are stated over have no row of their own:

- `RubyVersion.Resolve` (lib/language_pack/ruby.rb:161-178): the first evaluation of
  ruby_version.
- `LanguagePack.CompileStep` (lines 47-58): the whole of compile.
- `Steps.GemsStep` and `Steps.BundlerStep` (lines 80-132): build_bundler.
- `BuildEnv.LanguagePackEnv` (lines 196-204): the build-time environment.
- `BuildEnv.AllowGit` (lines 268-272): allow_git for an arbitrary block.

The rows naming each of these are `RubyVersion.ResolveIgnoresEnv`,
`LanguagePack.CompileRaises`, `Steps.BundlerRaises`, `BuildEnv.BuildTimeEnvironment` and
`BuildEnv.AllowGitScoping`, and the class methods proved against them.

| member | source | states |
|---|---|---|
| RubyStrings.ChompSpec | lib/language_pack/ruby.rb:165 | `chomp` keeps a prefix. It removes exactly one trailing "\r\n", "\n" or "\r" (the longest present), or nothing when the string ends in none of them. |
| RubyStrings.DigitRunEndSpec | lib/language_pack/ruby.rb:144 | The run found for `\d+` is all digits and is maximal: it is followed by a non-digit or the end. |
| RubyStrings.FindTailDigitsSpec | lib/language_pack/ruby.rb:144 | The position chosen for `/\d+$/` matches there, and no earlier position matches (leftmost match); no result means no match anywhere. |
| RubyStrings.FindPatchSpec | lib/language_pack/ruby.rb:165 | The position chosen for `/p\d+$/` matches, and no earlier one does; no result means no match. |
| RubyStrings.TailDigitsAtNoNewline | lib/language_pack/ruby.rb:144 | In a string without newlines, `/\d+$/` matches at i iff everything from i to the end is a digit. |
| RubyStrings.SubTailDigitsReplacesRun | lib/language_pack/ruby.rb:144 | `sub(/\d+$/, '0')` replaces the whole trailing digit run with a single "0" and keeps the rest ("2.7.10" becomes "2.7.0"), in a string without newlines. |
| RubyStrings.SubTailDigitsNoTrailingDigit | lib/language_pack/ruby.rb:144 | A string without newlines that does not end in a digit is left unchanged by `sub(/\d+$/, '0')`. |
| RubyStrings.StripPatchRemovesSuffix | lib/language_pack/ruby.rb:165 | `sub(/p\d+$/, '')` removes a trailing "p" plus digits and keeps everything before it ("3.0.2p107" becomes "3.0.2"), in a string without newlines. |
| RubyStrings.StripPatchNoSuffix | lib/language_pack/ruby.rb:173 | In a string without newlines, when no "p" is followed by digits up to the end, `sub(/p\d+$/, '')` changes nothing. |
| RubyStrings.IndexOfSpec | lib/language_pack/ruby.rb:165 | The index found holds the character, and no earlier index does; no result means the character does not occur. |
| RubyStrings.SubFirstSpec | lib/language_pack/ruby.rb:165 | `sub(' ', '-')` replaces exactly the first space and nothing else, and leaves a string without spaces unchanged. |
| RubyStrings.HasTripleFromSpec | lib/language_pack/ruby.rb:166 | The unanchored test succeeds iff some position starts digit, '.', digit, '.', digit (both directions). |
| RubyStrings.FieldsSpec | lib/language_pack/ruby.rb:181 | No field produced by splitting on `/[- ]/` contains a '-' or a space. |
| RubyStrings.FieldsOfNoSep | lib/language_pack/ruby.rb:181 | A string without '-' and ' ' splits into exactly one field, itself. |
| RubyStrings.FieldsSplit | lib/language_pack/ruby.rb:181 | Each separator splits: the fields of pre + sep + post are the fields of pre followed by those of post. With FieldsOfNoSep this fixes the split of every string. |
| RubyStrings.DropTrailingEmptySpec | lib/language_pack/ruby.rb:181 | Dropping trailing empty fields leaves a prefix of the fields that does not end in an empty field, and every field dropped is empty. |
| RubyStrings.TrimSepsSpec | lib/language_pack/ruby.rb:181 | The reference trim removes all trailing separators and keeps the prefix before them. |
| RubyStrings.TailRunSpec | lib/language_pack/ruby.rb:181 | The reference tail is the longest suffix without a separator. |
| RubyStrings.LastOfFields | lib/language_pack/ruby.rb:181 | The last field of the split, before trailing empty fields are dropped, is the text after the last separator. |
| RubyStrings.LastFieldIsTailRun | lib/language_pack/ruby.rb:181 | `split(/[- ]/).last` equals the reference: strip trailing separators, then take the text after the last one left; nil when only separators (or nothing) remain. |
| RubyStrings.LastFieldAfterSep | lib/language_pack/ruby.rb:181 | The last field of a prefix ending in a separator plus a separator-free field is that field. |
| RubyStrings.LastFieldExists | lib/language_pack/ruby.rb:181 | A string with some character other than '-' and ' ' has a last field, so it is not nil. |
| RubyVersion.NormalizeExample | lib/language_pack/ruby.rb:165 | "ruby 3.0.2p107", with or without its newline, normalises to "ruby-3.0.2". |
| RubyVersion.NormalizedSpaceHasDash | lib/language_pack/ruby.rb:165 | After line 165, a normalised version that still contains a space also contains a '-'. |
| RubyVersion.NormalizedNeverNoVersion | lib/language_pack/ruby.rb:165-168 | No lockfile value normalises to "No ruby version specified", so the comparison on line 168 is always false. |
| RubyVersion.ResolveNeverFromEnv | lib/language_pack/ruby.rb:165-175 | The first evaluation of ruby_version never takes the `ENV['RUBY_VERSION']` branch. |
| RubyVersion.ResolveIgnoresEnv | lib/language_pack/ruby.rb:161-178 | The first evaluation of ruby_version gives the same result whatever `ENV['RUBY_VERSION']` holds. |
| RubyVersion.ResolveLockfileWins | lib/language_pack/ruby.rb:165-166 | A lockfile version that contains d.d.d after normalisation is returned as normalised, whatever ENV and the probe say. |
| RubyVersion.ResolveFallsToProbe | lib/language_pack/ruby.rb:166-174 | When the normalised lockfile version fails the d.d.d test, the result is the chomped probe output with its patch suffix removed. |
| RubyVersion.UnspecifiedIgnoresEnv | lib/language_pack/ruby.rb:168-174 | A lockfile saying "No ruby version specified", with RUBY_VERSION=3.2.0 set, still resolves through the probe. |
| RubyVersion.NoDigitsNoTriple | lib/language_pack/ruby.rb:165-166 | A lockfile value without digits never passes the d.d.d test after normalisation. |
| RubyVersion.LockfileVersionHasBundlerPath | lib/language_pack/ruby.rb:142-145 | A version accepted from the lockfile always has a number, so slug_vendor_bundler cannot raise on it. |
| RubyVersion.SubTailDigitsExample | lib/language_pack/ruby.rb:144 | "3.0.2" with its trailing digit run replaced is "3.0.0". |
| RubyVersion.VersionNumberExample | lib/language_pack/ruby.rb:180-182 | The number of "ruby-3.0.2" is "3.0.2". |
| RubyVersion.DerivedPathsExample | lib/language_pack/ruby.rb:142-157 | For "ruby-3.0.2" the derived names are /opt/ruby/3.0.2, vendor/ruby-3.0.2 and vendor/bundle/ruby/3.0.0. |
| RubyVersion.MatchesExample | lib/language_pack/ruby.rb:166 | "ruby-3.0.2" passes the d.d.d test. |
| RubyVersion.ResolveExample | lib/language_pack/ruby.rb:161-166 | The lockfile "ruby 3.0.2p107\n" resolves to "ruby-3.0.2" whatever ENV and the probe hold. |
| BuildEnv.ApplyDefaultsKeeps | lib/language_pack/ruby.rb:199-201 | Setting each pair's key only when it is absent leaves every key that no pair names as it was. |
| BuildEnv.ApplyDefaultsFirst | lib/language_pack/ruby.rb:199-201 | A key named by some pair keeps its old value if it had one; otherwise it gets the value of the first pair naming it. |
| BuildEnv.RubyInstallEnvEffect | lib/language_pack/ruby.rb:228-233 | setup_ruby_install_env prefixes PATH with the binstub path and LD_LIBRARY_PATH with the expanded libstub path (an unset variable counts as ""). No other key changes. |
| BuildEnv.BuildTimeEnvironment | lib/language_pack/ruby.rb:196-204 | After environment setup: LANG and GEM_PATH are set only when they were absent; GEM_HOME is slug_vendor_bundler; PATH is exactly slug_vendor_ruby + "/bin:" + default_path whatever it was; LD_LIBRARY_PATH is prefixed; every other key is unchanged. |
| BuildEnv.DeleteThenRestore | lib/language_pack/ruby.rb:269-271 | Deleting GIT_DIR and then assigning back the deleted value (nil deletes) gives back ENV exactly, including when GIT_DIR was absent. |
| BuildEnv.AllowGitScoping | lib/language_pack/ruby.rb:268-272 | For any block: GIT_DIR is absent while the block runs. After a normal return, GIT_DIR is as it was before and the block's other changes persist. After an exception, ENV stays as the block left it, without GIT_DIR being restored. |
| BuildEnv.AllowGitUntouched | lib/language_pack/ruby.rb:268-272 | A block that leaves ENV alone gives back ENV exactly after a normal return, and leaves GIT_DIR deleted after an exception. |
| BuildEnv.ProfileEnvironment | lib/language_pack/ruby.rb:207-211 | When the application starts, the three directives leave platform-set GEM_PATH and LANG alone, always set PATH to the vendored bins first, and touch no other key. |
| Steps.LinkActions | lib/language_pack/ruby.rb:71-73 | There is one `ln -s` per bin entry, and the k-th link is for the k-th entry. |
| Steps.BundleWithoutDefault | lib/language_pack/ruby.rb:84 | The groups skipped default to "development:test" when BUNDLE_WITHOUT is unset; otherwise BUNDLE_WITHOUT is taken verbatim. |
| Steps.BundleFlagsText | lib/language_pack/ruby.rb:85 | The install options are " --without <groups> --path vendor/bundle --binstubs bin/". |
| Steps.InstallFlags | lib/language_pack/ruby.rb:85-113 | The piped install command contains the groups, vendor/bundle and bin/ options, and ends in " --deployment --no-clean 2>&1". |
| Steps.MissingLockfile | lib/language_pack/ruby.rb:82-89 | Without Gemfile.lock, build_bundler installs the bundler gem and then raises the lockfile error (with the message of line 88), with no pipe and no cache store. |
| Steps.InstallSuccess | lib/language_pack/ruby.rb:82-125 | After a successful install come exactly `bundle clean`, cache_store ".bundle", cache_store "vendor/bundle" and the removal of the gem cache, in that order. No pipe precedes the install, and no cache store precedes `bundle clean`. |
| Steps.InstallFailure | lib/language_pack/ruby.rb:113-130 | After a failed install, the install was piped, no cache store happened, and the step ends with the error "Failed to install gems via Bundler.". |
| Steps.BundlerRaises | lib/language_pack/ruby.rb:80-132 | build_bundler raises iff Gemfile.lock is missing, the install fails, or slug_vendor_bundler raises. Any error is the last action. |
| Steps.RakeOnlyWhenDefined | lib/language_pack/ruby.rb:321-331 | The real precompile runs iff the dry run succeeded, and the step never errors. |
| Steps.NodeJsWhenExecjs | lib/language_pack/ruby.rb:277-279 | node-0.4.7 is returned iff execjs is in the bundle, and nothing else is ever returned. |
| LanguagePack.CompileRaises | lib/language_pack/ruby.rb:47-58 | compile raises iff the version is nil, the version has no number, Gemfile.lock is missing, or the install fails. |
| LanguagePack.CompileStageOrder | lib/language_pack/ruby.rb:47-58 | A successful compile starts with the vendor/bundle removal and ends with the bundler step followed by the rake step. |
| LanguagePack.CompileWithoutLockfile | lib/language_pack/ruby.rb:47-50 | Without Gemfile.lock the version cannot be resolved. compile stops in install_ruby right after creating vendor/, and never reaches the lockfile error. |
| LanguagePack.Ruby.constructor | lib/language_pack/ruby.rb:7 | A new pack has every memo unset, no profile directives and an empty trace. |
| LanguagePack.Ruby.RubyVersion | lib/language_pack/ruby.rb:161-178 | The first call computes the version from the environment of that call, records the probe only when the probe decides, and memoises the result (nil when it raised). Later calls return the memo and record nothing. |
| LanguagePack.Ruby.RubyVersionNumber | lib/language_pack/ruby.rb:180-182 | Returns the last field of the memoised version; raises when the version is nil. |
| LanguagePack.Ruby.SlugVendorRuby | lib/language_pack/ruby.rb:149-151 | Returns "vendor/" followed by the version; raises only if this call computed the version and that raised. |
| LanguagePack.Ruby.BuildRubyPath | lib/language_pack/ruby.rb:155-157 | Returns "/opt/ruby/" followed by the version number; raises when the version is nil. |
| LanguagePack.Ruby.SlugVendorBundler | lib/language_pack/ruby.rb:142-145 | Returns vendor/bundle/ruby/ followed by the number with its trailing digit run replaced by 0, and memoises it. Raises, leaving the memo unset, when there is no number. |
| LanguagePack.Ruby.DefaultPath | lib/language_pack/ruby.rb:136-138 | Returns "bin:" + slug_vendor_bundler + "/bin:/usr/local/bin:/usr/bin:/bin", or raises with slug_vendor_bundler. |
| LanguagePack.Ruby.DefaultConfigVars | lib/language_pack/ruby.rb:31-38 | Returns LANG, PATH, GEM_PATH and GEM_HOME in insertion order, with their values, or raises with slug_vendor_bundler. |
| LanguagePack.Ruby.RubyInstallBinstubPath | lib/language_pack/ruby.rb:215-218 | Returns slug_vendor_ruby + "/bin" and memoises it; a raise leaves the memo unset. |
| LanguagePack.Ruby.RubyInstallLibstubPath | lib/language_pack/ruby.rb:222-225 | Returns slug_vendor_ruby + "/lib" and memoises it; a raise leaves the memo unset. |
| LanguagePack.Ruby.SetupRubyInstallEnv | lib/language_pack/ruby.rb:228-233 | ENV becomes the install environment (PATH and LD_LIBRARY_PATH prefixed), or stays as it was when the version raised. The binstub and libstub memos are set to slug_vendor_ruby + "/bin" and + "/lib", and stay nil after a raise. |
| LanguagePack.Ruby.ApplyConfigDefaults | lib/language_pack/ruby.rb:199-201 | The loop leaves ENV equal to setting each pair's key, in order, only where it is absent. |
| LanguagePack.Ruby.ApplyConfigVars | lib/language_pack/ruby.rb:199-203 | Applies the set-when-absent defaults, then sets GEM_HOME to slug_vendor_bundler and PATH to the binstub path + ":" + default_path. When slug_vendor_bundler raises, ENV is left alone. The binstub memo is slug_vendor_ruby + "/bin" after success and unchanged after a raise. |
| LanguagePack.Ruby.SetupLanguagePackEnvironment | lib/language_pack/ruby.rb:196-204 | ENV becomes the build-time environment stated by BuildTimeEnvironment. A raise from slug_vendor_bundler leaves the install environment in place; a raise from the version leaves ENV untouched. The binstub and libstub memos hold slug_vendor_ruby + "/bin" and + "/lib" unless the version raised, and nil if it did. |
| LanguagePack.Ruby.SetupProfiled | lib/language_pack/ruby.rb:207-211 | Appends exactly the three directives (default GEM_PATH, default LANG, override PATH) in order, or none when slug_vendor_bundler raises. |
| LanguagePack.Ruby.SuppressGitDir | lib/language_pack/ruby.rb:269 | Removes GIT_DIR from ENV and returns its old value (nil when absent). |
| LanguagePack.Ruby.RestoreGitDir | lib/language_pack/ruby.rb:271 | Assigns the saved value to GIT_DIR, where nil deletes the key. |
| LanguagePack.Ruby.InstallGems | lib/language_pack/ruby.rb:82-130 | Records exactly the actions of GemsStep and raises exactly when it does. |
| LanguagePack.Ruby.RunBundleInstall | lib/language_pack/ruby.rb:92-113 | Records the cache loads, the bundler version, the libyaml fetch, `pwd` and the piped install, in that order. |
| LanguagePack.Ruby.BuildBundler | lib/language_pack/ruby.rb:80-132 | Records the pending probe, then exactly BundlerStep for the current BUNDLE_WITHOUT, and raises as it does; raises with nothing more recorded when the version raises. |
| LanguagePack.Ruby.RunAssetsPrecompileRakeTask | lib/language_pack/ruby.rb:321-331 | Records the dry run, then the precompile only when the dry run succeeded. |
| LanguagePack.Ruby.GemIsBundled | lib/language_pack/ruby.rb:238-241 | True iff the gem is among the lockfile's spec names; raises when Gemfile.lock is missing. When Gemfile.lock exists, the @bundler_gems memo holds its spec names afterwards; otherwise the memo is unchanged. |
| LanguagePack.Ruby.AddNodeJsBinary | lib/language_pack/ruby.rb:277-279 | Returns [node-0.4.7] iff execjs is bundled, otherwise []; raises when Gemfile.lock is missing. The @bundler_gems memo is left as gem_is_bundled? leaves it. |
| LanguagePack.Ruby.InstallRuby | lib/language_pack/ruby.rb:64-77 | Creates vendor/, records the pending probe, then copies the runtime, creates bin/ and links each executable. Raises right after the probe when the version is nil. |
| LanguagePack.Ruby.CopyRuby | lib/language_pack/ruby.rb:66-73 | Records the `cp -R`, the creation of bin/ and one link per bin entry. |
| LanguagePack.Ruby.LinkBinaries | lib/language_pack/ruby.rb:71-73 | The loop records one `ln -s` per entry, in glob order. |
| LanguagePack.Ruby.RemoveVendorBundle | lib/language_pack/ruby.rb:311-319 | Removes vendor/bundle exactly when it was checked in. |
| LanguagePack.Ruby.Compile | lib/language_pack/ruby.rb:47-58 | The trace is exactly CompileStep's, and compile raises as it does. After success, ENV is the build-time environment. The profile holds the three directives whenever setup_profiled was reached, and is unchanged otherwise. ENV after a raise is what the raising stage leaves: unchanged when the version is nil, the install environment when slug_vendor_bundler raises, and the build-time environment without GIT_DIR when the bundler step raises. Without Gemfile.lock, only the removal and vendor/ are recorded. The frame excludes @bundler_gems, so compile leaves that memo unchanged. |
| LanguagePack.Ruby.AllowGitBuild | lib/language_pack/ruby.rb:53-57 | Runs the bundler and rake steps with GIT_DIR removed. After a normal return ENV is exactly as before; after a raise, GIT_DIR stays deleted and the rake step is skipped. |

## Left out

- Running processes. Nothing is executed:
  - every command passed to `run`, `pipe` or `run_stdout` is a structured `Steps.Command`
    recorded in the trace;
  - the backticks on lines 68 and 75 (`ls` of the runtime and `ruby -v`) only feed `topic`
    output, so they are neither recorded nor modelled;
  - only the outputs and exit statuses that decide something are fields of `Inputs.World`:
    the probe's stdout, `pwd`, and the exit statuses of `bundle install` and the rake dry run;
  - the outputs of `gem install` and `bundle version`, which are only printed, and the
    success of the other commands are not modelled.
- Downloads. The `curl | tar` downloads of `bootstrap_bundler`, `install_libyaml` and
  `install_language_pack_gems` are recorded commands only. The copy and the links of
  `install_ruby` are recorded commands too.
- `install_language_pack_gems` and `vendored_gems`: the call in `compile` is commented
  out, so neither runs.
- `Bundler::LockfileParser` (line 256) is a foreign library. Its result is an input:
  - a missing Gemfile.lock makes `File.read` on line 256 raise, and a nil `RUBY VERSION`
    makes `chomp` on line 165 raise. Both raise before line 165 produces a value, so both
    are one case, `Inputs.LockVersion` returning None;
  - parse errors of a malformed lockfile are not modelled.
- The base class is not part of this model:
  - `error` is modelled as an action that aborts the build;
  - `cache_load` and `cache_store` are recorded actions;
  - `set_env_default` and `set_env_override` are directives;
  - `log`, `topic` and `puts` output is not modelled.
- The file system is not modelled:
  - `Dir.chdir` and `File.expand_path` (the latter is a function in `World`);
  - `Dir.mktmpdir` (its directories are inputs, and their removal is not recorded);
  - the `bin/*` glob (an input list).
- The `bundler_output` string that build_bundler accumulates is never read afterwards, so
  it is not modelled.
- `Benchmark.realtime` and the "%.2f" timing message of the rake task (floating point and
  the clock).
- `add_bundler_to_load_path` (changes `$:`, and its only call is commented out),
  `self.use?`, `name`, `default_addons` and `default_process_types`: constants or file
  checks outside the build logic.
- Shell expansion of `$HOME`, `$PATH` and `$CPATH` in the profile directives and commands:
  values are kept as written.
- `LanguagePack.Ruby.RubyVersion`: it does not model the probe's own failures (a failing
  download or `bundle platform`), only its stdout.
