/** The start-up decision of the host process: on Debian 10 or 11 under a GNOME Wayland
    session the app relaunches itself under X11 with a marker variable set, otherwise it
    starts normally. Also the guard that decides whether a temporary schema directory is
    removed on quit. The operating-system facts (platform, the text of `/etc/os-release`,
    the environment) are inputs. */
module StartupGate {
  import opened Wrappers
  import opened Text
  import opened ProcessEnv

  /** The os-release text names Debian 10 or 11. */
  predicate IsDebian10or11(osRelease: string) {
    Contains(osRelease, "ID=debian")
    && (Contains(osRelease, "VERSION_ID=\"11\"") || Contains(osRelease, "VERSION_ID=\"10\""))
  }

  /** The desktop and session variables, upper-cased, name GNOME and Wayland. */
  predicate IsGnomeWayland(env: Env) {
    Contains(ToUpper(EnvOr(env, "XDG_CURRENT_DESKTOP")), "GNOME")
    && Contains(ToUpper(EnvOr(env, "XDG_SESSION_TYPE")), "WAYLAND")
  }

  /** `shouldRelaunchForDebianGnomeWayland`. `osRelease` is None when reading the file
      failed, which decides against relaunching. */
  function ShouldRelaunch(platform: string, osRelease: Option<string>, env: Env): (r: bool)
    ensures r <==>
      && platform == "linux"
      && !Truthy(env, "AFPMA_RELAUNCHED")
      && osRelease.Some?
      && (exists i :: OccursAt(osRelease.value, "ID=debian", i))
      && ((exists i :: OccursAt(osRelease.value, "VERSION_ID=\"11\"", i))
          || (exists i :: OccursAt(osRelease.value, "VERSION_ID=\"10\"", i)))
      && IsGnomeWayland(env)
  {
    if platform != "linux" || Truthy(env, "AFPMA_RELAUNCHED") then false
    else
      match osRelease
      case None => false
      case Some(text) =>
        ContainsOccurs(text, "ID=debian");
        ContainsOccurs(text, "VERSION_ID=\"11\"");
        ContainsOccurs(text, "VERSION_ID=\"10\"");
        if !IsDebian10or11(text) then false
        else IsGnomeWayland(env)
  }

  /** The variables the relaunch sets. */
  const RelaunchOverrides: Env := map[
    "AFPMA_RELAUNCHED" := "true",
    "ELECTRON_OZONE_PLATFORM_HINT" := "x11",
    "GDK_BACKEND" := "x11",
    "XDG_SESSION_TYPE" := "x11"]

  /** The child's environment: a copy of the parent's with the four overrides. */
  function RelaunchEnv(env: Env): (r: Env)
    ensures r.Keys == env.Keys + RelaunchOverrides.Keys
    ensures forall k :: k in env && k !in RelaunchOverrides ==> r[k] == env[k]
    ensures r["AFPMA_RELAUNCHED"] == "true" && r["XDG_SESSION_TYPE"] == "x11"
    ensures r["ELECTRON_OZONE_PLATFORM_HINT"] == "x11" && r["GDK_BACKEND"] == "x11"
  {
    env + RelaunchOverrides
  }

  /** What the process does at start-up. */
  datatype Startup = Relaunch(childEnv: Env) | Normal

  function Decide(platform: string, osRelease: Option<string>, env: Env): (d: Startup)
    ensures d.Relaunch? <==> ShouldRelaunch(platform, osRelease, env)
    ensures d.Relaunch? ==> d.childEnv == RelaunchEnv(env)
  {
    if ShouldRelaunch(platform, osRelease, env) then Relaunch(RelaunchEnv(env)) else Normal
  }

  /** The relaunched child never relaunches again: the marker variable is set. */
  lemma NoRelaunchLoop(platform: string, osRelease: Option<string>, env: Env)
    ensures Decide(platform, osRelease, env).Relaunch? ==>
      Decide(platform, osRelease, Decide(platform, osRelease, env).childEnv) == Normal
  {
    assert Truthy(RelaunchEnv(env), "AFPMA_RELAUNCHED");
  }

  /** Independently of the marker, the child's session type is "x11", so it is no longer
      a Wayland session either. */
  lemma ChildIsNotWayland(env: Env)
    ensures !IsGnomeWayland(RelaunchEnv(env))
  {
    var session := ToUpper(EnvOr(RelaunchEnv(env), "XDG_SESSION_TYPE"));
    assert |session| == 3;
    ContainsTooLong(session, "WAYLAND");
  }

  /** The desktop and session checks ignore letter case: "ubuntu:gnome" or "wayland"
      written in any case is recognised. */
  lemma DesktopCaseIgnored(env: Env, desktop: string, session: string)
    requires EnvOr(env, "XDG_CURRENT_DESKTOP") == desktop
    requires EnvOr(env, "XDG_SESSION_TYPE") == session
    requires exists w :: Contains(desktop, w) && ToUpper(w) == "GNOME"
    requires exists w :: Contains(session, w) && ToUpper(w) == "WAYLAND"
    ensures IsGnomeWayland(env)
  {
    var g :| Contains(desktop, g) && ToUpper(g) == "GNOME";
    var w :| Contains(session, w) && ToUpper(w) == "WAYLAND";
    UpperKeepsContains(desktop, g);
    UpperKeepsContains(session, w);
  }

  /** A missing or empty desktop variable never passes. */
  lemma UnsetDesktopNoRelaunch(platform: string, osRelease: Option<string>, env: Env)
    requires "XDG_CURRENT_DESKTOP" !in env || env["XDG_CURRENT_DESKTOP"] == ""
    ensures Decide(platform, osRelease, env) == Normal
  {
    ContainsTooLong(ToUpper(EnvOr(env, "XDG_CURRENT_DESKTOP")), "GNOME");
  }

  /** `cleanupTempSchemaDir`'s guard: the directory is removed only when it is set, not
      empty, and its name contains "firecalc-schemas-". `dir` is None for `null`. */
  function RemovesSchemaDir(dir: Option<string>): (r: bool)
    ensures r <==> dir.Some? && exists i :: OccursAt(dir.value, "firecalc-schemas-", i)
  {
    match dir
    case None => false
    case Some(d) =>
      ContainsOccurs(d, "firecalc-schemas-");
      d != "" && Contains(d, "firecalc-schemas-")
  }

  /** Every directory made from the "firecalc-schemas-" template (a temporary-directory
      prefix, the template, a random suffix) is one the guard removes. */
  lemma TemplateDirRemoved(tmp: string, suffix: string)
    ensures RemovesSchemaDir(Some(tmp + "firecalc-schemas-" + suffix))
  {
    ContainsInfix(tmp, "firecalc-schemas-", suffix);
    ContainsOccurs(tmp + "firecalc-schemas-" + suffix, "firecalc-schemas-");
  }
}
