/**
  Ruby version resolution (LanguagePack::Ruby#ruby_version) and the directory
  names derived from the version, as pure functions of their inputs. The
  memoisation lives in the class LanguagePack.Ruby.
*/
module RubyVersion {
  import opened Wrappers
  import opened RubyStrings

  const VENDOR_DIR := "vendor"
  const NO_VERSION_SPECIFIED := "No ruby version specified"

  /** Line 165: `.chomp.sub(/p\d+$/, '').sub(' ', '-')` on the lockfile's ruby version. */
  function NormalizeLockVersion(raw: string): string {
    SubFirst(StripPatch(Chomp(raw)), ' ', '-')
  }

  /** Line 173: `.chomp.sub(/p\d+$/, '')` on the probe's stdout (no space replacement). */
  function NormalizeProbe(stdout: string): string {
    StripPatch(Chomp(stdout))
  }

  /** Where a freshly computed @ruby_version came from; Unparseable when computing it raised. */
  datatype Resolution =
    | Unparseable
    | FromLockfile(version: string)
    | FromEnv(version: string)
    | FromProbe(version: string)

  /**
    The first evaluation of ruby_version. `lockVersion` is lockfile_parser.ruby_version
    (None: nil, on which chomp raises); `envVersion` is ENV['RUBY_VERSION'].
    `sub` never returns nil, so the `@ruby_version.nil?` test on line 168 is false.
  */
  function Resolve(lockVersion: Option<string>, envVersion: Option<string>, probeStdout: string): Resolution {
    if lockVersion.None? then Unparseable
    else
      var v := NormalizeLockVersion(lockVersion.value);
      if MatchesVersionPattern(v) then FromLockfile(v)
      else if envVersion.Some? && v == NO_VERSION_SPECIFIED then FromEnv(envVersion.value)
      else FromProbe(NormalizeProbe(probeStdout))
  }

  /** @ruby_version after a resolution: nil when it raised. */
  function VersionOf(r: Resolution): Option<string> {
    if r.Unparseable? then None else Some(r.version)
  }

  /** ruby_version_number on a non-nil version (nil.split raises). */
  function VersionNumber(version: string): Option<string> {
    LastField(version)
  }

  /** build_ruby_path: "/opt/ruby/#{ruby_version_number}". */
  function BuildRubyPath(number: Option<string>): string {
    "/opt/ruby/" + Interpolate(number)
  }

  /** slug_vendor_ruby: "#{VENDOR_DIR}/#{ruby_version}". */
  function SlugVendorRuby(version: Option<string>): string {
    VENDOR_DIR + "/" + Interpolate(version)
  }

  /** File.join(VENDOR_DIR, "bundle", "ruby", number.sub(/\d+$/, '0')). */
  function SlugVendorBundler(number: string): string {
    JoinPath(VENDOR_DIR + "/bundle/ruby", SubTailDigits(number))
  }

  /** slug_vendor_bundler for a given @ruby_version; None when computing it raises
      (nil version, or a version without a field, whose number is nil). */
  function VendorBundlerFor(version: Option<string>): Option<string> {
    if version.None? then None
    else
      var number := VersionNumber(version.value);
      if number.None? then None else Some(SlugVendorBundler(number.value))
  }

  // ---------------------------------------------------------------------------
  // Properties

  /** The lockfile form "ruby 3.0.2p107" (with or without its newline) normalises to "ruby-3.0.2". */
  lemma NormalizeExample()
    ensures NormalizeLockVersion("ruby 3.0.2p107") == "ruby-3.0.2"
    ensures NormalizeLockVersion("ruby 3.0.2p107\n") == "ruby-3.0.2"
  {
    assert Chomp("ruby 3.0.2p107\n") == "ruby 3.0.2p107";
    assert "ruby 3.0.2p107" == "ruby 3.0.2" + "p" + "107";
    StripPatchRemovesSuffix("ruby 3.0.2", "107");
    var s := "ruby 3.0.2";
    assert s[4] == ' ';
    assert forall k :: 0 <= k < 4 ==> s[k] != ' ';
    assert IndexOf(s, ' ', 0) == Some(4);
    assert s[..4] + ['-'] + s[5..] == "ruby-3.0.2";
  }

  /** After line 165 a space can only survive next to a '-': the first space became one. */
  lemma NormalizedSpaceHasDash(raw: string)
    ensures ' ' in NormalizeLockVersion(raw) ==> '-' in NormalizeLockVersion(raw)
  {
    SubFirstSpec(StripPatch(Chomp(raw)), ' ', '-');
  }

  /** Hence line 165 never yields "No ruby version specified", which has spaces and no '-'. */
  lemma NormalizedNeverNoVersion(raw: string)
    ensures NormalizeLockVersion(raw) != NO_VERSION_SPECIFIED
  {
    NormalizedSpaceHasDash(raw);
    var n := NO_VERSION_SPECIFIED;
    assert n[2] == ' ';
    assert forall k :: 0 <= k < |n| ==> n[k] != '-';
  }

  /** The ENV['RUBY_VERSION'] branch (lines 168-170) is never taken. */
  lemma ResolveNeverFromEnv(lockVersion: Option<string>, envVersion: Option<string>, probeStdout: string)
    ensures !Resolve(lockVersion, envVersion, probeStdout).FromEnv?
  {
    if lockVersion.Some? {
      NormalizedNeverNoVersion(lockVersion.value);
    }
  }

  /** Consequently the first evaluation of ruby_version does not depend on ENV at all. */
  lemma ResolveIgnoresEnv(lockVersion: Option<string>, envVersion: Option<string>, probeStdout: string)
    ensures Resolve(lockVersion, envVersion, probeStdout) == Resolve(lockVersion, None, probeStdout)
  {
    if lockVersion.Some? {
      NormalizedNeverNoVersion(lockVersion.value);
    }
  }

  /** A lockfile version containing d.d.d after normalisation wins, whatever ENV and the probe say. */
  lemma ResolveLockfileWins(raw: string, envVersion: Option<string>, probeStdout: string)
    requires MatchesVersionPattern(NormalizeLockVersion(raw))
    ensures Resolve(Some(raw), envVersion, probeStdout) == FromLockfile(NormalizeLockVersion(raw))
    ensures Resolve(Some(raw), envVersion, probeStdout) == Resolve(Some(raw), None, "")
  {
  }

  /** Whenever the lockfile version fails the d.d.d test, the probe decides, whatever ENV holds. */
  lemma ResolveFallsToProbe(raw: string, envVersion: Option<string>, probeStdout: string)
    requires !MatchesVersionPattern(NormalizeLockVersion(raw))
    ensures Resolve(Some(raw), envVersion, probeStdout) == FromProbe(NormalizeProbe(probeStdout))
  {
    NormalizedNeverNoVersion(raw);
  }

  /** The lockfile saying "No ruby version specified" with RUBY_VERSION=3.2.0 set still goes to the probe. */
  lemma UnspecifiedIgnoresEnv(probeStdout: string)
    ensures Resolve(Some(NO_VERSION_SPECIFIED), Some("3.2.0"), probeStdout) == FromProbe(NormalizeProbe(probeStdout))
  {
    var n := NO_VERSION_SPECIFIED;
    assert forall k :: 0 <= k < |n| ==> !IsDigit(n[k]);
    NoDigitsNoTriple(n);
    ResolveFallsToProbe(n, Some("3.2.0"), probeStdout);
  }

  /** A string without digits keeps none through line 165, so it cannot match d.d.d. */
  lemma NoDigitsNoTriple(raw: string)
    requires forall k :: 0 <= k < |raw| ==> !IsDigit(raw[k])
    ensures !MatchesVersionPattern(NormalizeLockVersion(raw))
  {
    var c := Chomp(raw);
    ChompSpec(raw);
    assert forall k :: 0 <= k < |c| ==> !IsDigit(c[k]) by {
      forall k | 0 <= k < |c| ensures !IsDigit(c[k]) { assert c[k] == raw[k]; }
    }
    assert FindPatch(c, 0).None? by {
      FindPatchSpec(c, 0);
      forall i | 0 <= i < |c| ensures !PatchAt(c, i) {
        if i + 1 < |c| { assert !IsDigit(c[i + 1]); }
      }
    }
    var v := NormalizeLockVersion(raw);
    SubFirstSpec(c, ' ', '-');
    HasTripleFromSpec(v, 0);
    forall k | 0 <= k <= |v| ensures !TripleAt(v, k) {
      if k < |v| {
        assert !IsDigit(c[k]);
        assert v[k] == c[k] || v[k] == '-';
      }
    }
  }

  /** A version accepted from the lockfile always has a number, so slug_vendor_bundler cannot raise on it. */
  lemma LockfileVersionHasBundlerPath(raw: string)
    requires MatchesVersionPattern(NormalizeLockVersion(raw))
    ensures VendorBundlerFor(Some(NormalizeLockVersion(raw))).Some?
  {
    var v := NormalizeLockVersion(raw);
    HasTripleFromSpec(v, 0);
    var k :| 0 <= k <= |v| && TripleAt(v, k);
    LastFieldExists(v, k);
  }

  /** "3.0.2".sub(/\d+$/, '0') is "3.0.0". */
  lemma SubTailDigitsExample()
    ensures SubTailDigits("3.0.2") == "3.0.0"
  {
    SubTailDigitsReplacesRun("3.0.", "2");
    assert "3.0." + "2" == "3.0.2";
    assert "3.0." + "0" == "3.0.0";
  }

  /** "ruby-3.0.2".split(/[- ]/).last is "3.0.2". */
  lemma VersionNumberExample()
    ensures VersionNumber("ruby-3.0.2") == Some("3.0.2")
  {
    var f := "3.0.2";
    assert forall k :: 0 <= k < |f| ==> !IsSep(f[k]);
    assert "ruby-3.0.2" == "ruby-" + f;
    LastFieldAfterSep("ruby-", f);
  }

  /** The derived names for "ruby-3.0.2": /opt/ruby/3.0.2, vendor/ruby-3.0.2 and
      vendor/bundle/ruby/3.0.0 (the last digit run replaced by 0). */
  lemma DerivedPathsExample()
    ensures BuildRubyPath(VersionNumber("ruby-3.0.2")) == "/opt/ruby/3.0.2"
    ensures SlugVendorRuby(Some("ruby-3.0.2")) == "vendor/ruby-3.0.2"
    ensures VendorBundlerFor(Some("ruby-3.0.2")) == Some("vendor/bundle/ruby/3.0.0")
  {
    VersionNumberExample();
    SubTailDigitsExample();
    var dir := VENDOR_DIR + "/bundle/ruby";
    assert dir == "vendor/bundle/ruby";
    assert SlugVendorBundler("3.0.2") == JoinPath(dir, "3.0.0");
    assert JoinPath(dir, "3.0.0") == "vendor/bundle/ruby" + "/" + "3.0.0" == "vendor/bundle/ruby/3.0.0";
    assert VendorBundlerFor(Some("ruby-3.0.2")) == Some(SlugVendorBundler("3.0.2"));
  }

  /** "ruby-3.0.2" passes the test on line 166. */
  lemma MatchesExample()
    ensures MatchesVersionPattern("ruby-3.0.2")
  {
    var v := "ruby-3.0.2";
    assert TripleAt(v, 5);
  }

  /** The lockfile "ruby 3.0.2p107" resolves to "ruby-3.0.2" whatever the environment holds. */
  lemma ResolveExample(envVersion: Option<string>, probeStdout: string)
    ensures Resolve(Some("ruby 3.0.2p107\n"), envVersion, probeStdout) == FromLockfile("ruby-3.0.2")
  {
    NormalizeExample();
    MatchesExample();
    ResolveLockfileWins("ruby 3.0.2p107\n", envVersion, probeStdout);
  }
}
