/**
  What the language pack learns from outside itself: the parsed Gemfile.lock,
  the output and exit status of the commands it spawns, the file system checks
  and globs it makes, and File.expand_path (which depends on the working
  directory). The model takes each of these as a given value.
*/
module Inputs {
  import opened Wrappers

  /** What Bundler::LockfileParser yields: the RUBY VERSION entry (nil when absent) and the spec names in order. */
  datatype Lockfile = Lockfile(rubyVersion: Option<string>, specNames: seq<string>)

  datatype World = World(
    /** Gemfile.lock, parsed; None when the file does not exist. */
    lockfile: Option<Lockfile>,
    /** stdout of `bundle platform --ruby`, as run_stdout returns it. */
    probeStdout: string,
    /** The directory Dir.mktmpdir("bundler-") creates in bootstrap_bundler. */
    bundlerTmpdir: string,
    /** File.expand_path, relative to the build directory. */
    expandPath: string -> string,
    /** File.exists?("vendor/bundle") in the checked-out app. */
    vendorBundleCheckedIn: bool,
    /** The entries the glob of slug_vendor_ruby + "/bin" returns once the runtime is copied. */
    rubyBinEntries: seq<string>,
    /** VENDOR_URL of the base language pack. */
    vendorUrl: string,
    /** The directory Dir.mktmpdir("libyaml-") creates. */
    libyamlTmpdir: string,
    /** Output of `run("pwd")`. */
    pwdOutput: string,
    /** $?.success? after the piped `bundle install`. */
    installSucceeded: bool,
    /** $?.success? after `bundle exec rake assets:precompile --dry-run`. */
    rakeTaskDefined: bool
  )

  /** The value `lockfile_parser.ruby_version` gives; None when it would be nil or the file cannot be read. */
  function LockVersion(w: World): Option<string> {
    if w.lockfile.Some? then w.lockfile.value.rubyVersion else None
  }
}
