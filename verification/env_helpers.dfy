/**
 The command line's path and environment helpers. The process environment
 is a map from variable names to values; an unset variable reads as the
 empty string, as `os.Getenv` returns it.
 */
module EnvHelpers {
  import opened Primitives

  type Env = map<string, string>

  /** `os.Getenv(name)`. */
  function Getenv(env: Env, name: string): (v: string)
    ensures name in env ==> v == env[name]
    ensures name !in env ==> v == ""
  {
    if name in env then env[name] else ""
  }

  /** `NormalizePath(input)`: every backslash becomes a forward slash. */
  function NormalizePath(input: string): (r: string)
    ensures |r| == |input|
    ensures forall i :: 0 <= i < |input| ==> r[i] == (if input[i] == '\\' then '/' else input[i])
  {
    if input == [] then []
    else [if input[0] == '\\' then '/' else input[0]] + NormalizePath(input[1..])
  }

  /** A normalized path has no backslash, and normalizing it again changes nothing. */
  lemma {:induction false} NormalizePathIdempotent(input: string)
    ensures '\\' !in NormalizePath(input)
    ensures NormalizePath(NormalizePath(input)) == NormalizePath(input)
  {
    if input != [] {
      NormalizePathIdempotent(input[1..]);
      var n := NormalizePath(input);
      assert n[1..] == NormalizePath(input[1..]);
    }
  }

  /** A path without backslashes is already normalized. */
  lemma {:induction false} NormalizePathKeepsClean(input: string)
    requires '\\' !in input
    ensures NormalizePath(input) == input
  {
    if input != [] {
      assert input[0] in input;
      assert forall c :: c in input[1..] ==> c in input;
      NormalizePathKeepsClean(input[1..]);
    }
  }

  /**
   `getFromEnv(name, onNotFound)`: the variable's value when it is set to
   something non-empty, otherwise `fallback` (what `onNotFound()` returns).
   */
  function GetFromEnv(env: Env, name: string, fallback: string): (r: string)
    ensures name in env && env[name] != "" ==> r == env[name]
    ensures (name !in env || env[name] == "") ==> r == fallback
  {
    var v := Getenv(env, name);
    if v != "" then v else fallback
  }

  /**
   After `os.Setenv(name, v)`, `getFromEnv(name)` gives `v` unless it is
   empty, other variables read as before, and a fallback that is itself the
   variable's lookup changes nothing.
   */
  lemma GetFromEnvAfterSetenv(env: Env, name: string, v: string, other: string, fallback: string)
    ensures GetFromEnv(env[name := v], name, fallback) == (if v != "" then v else fallback)
    ensures other != name ==> GetFromEnv(env[name := v], other, fallback) == GetFromEnv(env, other, fallback)
    ensures GetFromEnv(env, name, GetFromEnv(env, name, fallback)) == GetFromEnv(env, name, fallback)
  {
  }

  /**
   `HomeDir()`: `HOME` as it is when set; otherwise `USERPROFILE`, or "."
   when that is empty too, with backslashes turned into slashes.
   */
  function HomeDir(env: Env): (r: string)
    ensures Getenv(env, "HOME") != "" ==> r == env["HOME"]
    ensures Getenv(env, "HOME") == "" && Getenv(env, "USERPROFILE") != "" ==> r == NormalizePath(env["USERPROFILE"])
    ensures Getenv(env, "HOME") == "" && Getenv(env, "USERPROFILE") == "" ==> r == "."
    ensures r != ""
  {
    var h := Getenv(env, "HOME");
    if h != "" then h
    else
      var p := Getenv(env, "USERPROFILE");
      NormalizePath(if p == "" then "." else p)
  }

  /** A home directory taken from `USERPROFILE` never contains a backslash; one taken from `HOME` keeps its own. */
  lemma HomeDirSlashes(env: Env)
    ensures Getenv(env, "HOME") == "" ==> '\\' !in HomeDir(env)
    ensures Getenv(env, "HOME") != "" ==> HomeDir(env) == Getenv(env, "HOME")
  {
    NormalizePathIdempotent(Getenv(env, "USERPROFILE"));
    NormalizePathIdempotent(".");
  }

  /** The outcome of a helper that may fail with an error from the operating system. */
  datatype Outcome = Value(s: string) | OsError

  /**
   `WorkingDir()`: `cwd` is what `os.Getwd` reports (`None` for an error).
   An empty directory is returned as "" with Getwd's error, here none.
   */
  function WorkingDir(cwd: Option<string>): (r: Outcome)
    ensures cwd.None? ==> r == OsError
    ensures cwd == Some("") ==> r == Value("")
    ensures cwd.Some? && cwd.value != "" ==> r == Value(NormalizePath(cwd.value))
  {
    match cwd
    case None => OsError
    case Some(wd) => if wd == "" then Value("") else Value(NormalizePath(wd))
  }

  /**
   `GetZitiHome()`: the home variable when set; otherwise the working
   directory (or "." if it cannot be read) is written back to the
   environment first. `setenvOk` is whether `os.Setenv` succeeds. The
   result is normalized; the environment after the call is returned too.
   */
  function GetZitiHome(env: Env, homeVar: string, cwd: Option<string>, setenvOk: bool): (r: (Env, Outcome))
    ensures Getenv(env, homeVar) != "" ==> r == (env, Value(NormalizePath(env[homeVar])))
    ensures Getenv(env, homeVar) == "" && !setenvOk ==> r == (env, OsError)
    ensures Getenv(env, homeVar) == "" && setenvOk ==>
      var wd := if WorkingDir(cwd).Value? then WorkingDir(cwd).s else ".";
      r == (env[homeVar := wd], Value(NormalizePath(wd)))
  {
    var v := Getenv(env, homeVar);
    if v != "" then (env, Value(NormalizePath(v)))
    else
      var wd := match WorkingDir(cwd) case Value(s) => s case OsError => ".";
      if !setenvOk then (env, OsError)
      else
        var env1 := env[homeVar := wd];
        (env1, Value(NormalizePath(Getenv(env1, homeVar))))
  }

  /**
   After `GetZitiHome` succeeds, a second call finds the variable set and
   returns the same path without touching the environment again (unless the
   working directory was the empty string, which is stored as unset).
   */
  lemma GetZitiHomeStable(env: Env, homeVar: string, cwd: Option<string>, setenvOk: bool, cwd2: Option<string>, ok2: bool)
    requires GetZitiHome(env, homeVar, cwd, setenvOk).1.Value?
    requires cwd != Some("")
    ensures var (env1, first) := GetZitiHome(env, homeVar, cwd, setenvOk);
      GetZitiHome(env1, homeVar, cwd2, ok2) == (env1, first)
  {
  }

  /**
   `HostnameOrNetworkName()`: `ZITI_NETWORK_NAME` when set, else the host
   name (`None` when `os.Hostname` fails, giving "localhost").
   */
  function HostnameOrNetworkName(env: Env, hostname: Option<string>): (r: string)
    ensures Getenv(env, "ZITI_NETWORK_NAME") != "" ==> r == env["ZITI_NETWORK_NAME"]
    ensures Getenv(env, "ZITI_NETWORK_NAME") == "" && hostname.Some? ==> r == hostname.value
    ensures Getenv(env, "ZITI_NETWORK_NAME") == "" && hostname.None? ==> r == "localhost"
  {
    var val := Getenv(env, "ZITI_NETWORK_NAME");
    if val != "" then val
    else match hostname
      case None => "localhost"
      case Some(h) => h
  }

  /**
   `HostnameOrNetworkName` is `getFromEnv` on `ZITI_NETWORK_NAME` with the
   host name, or "localhost", as the fallback.
   */
  lemma NetworkNameIsGetFromEnv(env: Env, hostname: Option<string>)
    ensures HostnameOrNetworkName(env, hostname)
         == GetFromEnv(env, "ZITI_NETWORK_NAME", if hostname.Some? then hostname.value else "localhost")
  {
  }
}
