/** How the host process classifies its build. Two signals are computed independently:
    `isDevBuild` (from packaging, `ELECTRON_IS_DEV` and the `.dev-build` marker) drives the
    script policy, the updater and the developer menu; `buildEnv` (from the `.build-env`
    marker) drives which backends the renderer may connect to. A marker file's content is
    None when the file is missing or cannot be read. */
module BuildEnvironment {
  import opened Wrappers
  import opened Text
  import opened ProcessEnv

  /** `isDevBuild`: unpackaged, or `ELECTRON_IS_DEV === 'true'`, or the trimmed
      `.dev-build` marker reads "true"; an unreadable marker counts as not dev. */
  function IsDevBuild(isPackaged: bool, env: Env, devMarker: Option<string>): (r: bool)
    ensures !isPackaged ==> r
    ensures r <==> !isPackaged
                   || ("ELECTRON_IS_DEV" in env && env["ELECTRON_IS_DEV"] == "true")
                   || (devMarker.Some? && exists i :: Padded(devMarker.value, i, "true"))
  {
    if !isPackaged then true
    else if "ELECTRON_IS_DEV" in env && env["ELECTRON_IS_DEV"] == "true" then true
    else
      match devMarker
      case None => false
      case Some(text) =>
        MarkerReadsTrue(text);
        Trim(text) == "true"
  }

  /** The trimmed marker is "true" exactly when the file is "true" padded by whitespace. */
  lemma MarkerReadsTrue(text: string)
    ensures Trim(text) == "true" <==> exists i :: Padded(text, i, "true")
  {
    if i :| Padded(text, i, "true") {
      assert text == text[..i] + "true" + text[i + 4..];
      TrimPadded(text[..i], "true", text[i + 4..]);
    }
  }

  /** `buildEnv`: the trimmed `.build-env` content, or "dev" when it cannot be read. */
  function BuildEnv(buildEnvMarker: Option<string>): (r: string)
    ensures buildEnvMarker.None? ==> r == "dev"
    ensures buildEnvMarker.Some? ==> exists i :: Padded(buildEnvMarker.value, i, r)
    ensures buildEnvMarker.Some? ==> r == [] || (!IsWhitespace(r[0]) && !IsWhitespace(r[|r| - 1]))
  {
    match buildEnvMarker
    case None => "dev"
    case Some(text) => Trim(text)
  }

  predicate IsStaging(buildEnv: string) {
    buildEnv == "staging"
  }

  predicate IsProduction(buildEnv: string) {
    buildEnv == "production"
  }

  /** The deployment tier the connect policy selects: staging, production, or anything
      else (including the "dev" fallback and any unrecognised marker). */
  datatype Tier = Staging | Production | Development

  function TierOf(buildEnv: string): (t: Tier)
    ensures t == Staging <==> IsStaging(buildEnv)
    ensures t == Production <==> IsProduction(buildEnv)
    ensures t == Development <==> !IsStaging(buildEnv) && !IsProduction(buildEnv)
  {
    if IsStaging(buildEnv) then Staging
    else if IsProduction(buildEnv) then Production
    else Development
  }

  /** The classification the rest of the host process reads. */
  datatype Config = Config(isDev: bool, useViteDevServer: bool, buildEnv: string)
  {
    predicate StagingBuild() { IsStaging(buildEnv) }
    predicate ProductionBuild() { IsProduction(buildEnv) }
  }

  function Classify(isPackaged: bool, env: Env, devMarker: Option<string>,
                    buildEnvMarker: Option<string>): (c: Config)
    ensures c.isDev == IsDevBuild(isPackaged, env, devMarker)
    ensures c.useViteDevServer <==> "VITE_DEV_SERVER" in env && env["VITE_DEV_SERVER"] == "true"
    ensures c.buildEnv == BuildEnv(buildEnvMarker)
    ensures !(c.StagingBuild() && c.ProductionBuild())
  {
    Config(IsDevBuild(isPackaged, env, devMarker),
           "VITE_DEV_SERVER" in env && env["VITE_DEV_SERVER"] == "true",
           BuildEnv(buildEnvMarker))
  }

  /** The two signals are independent: an unpackaged run (hence a dev build) may carry a
      production `.build-env`, and a packaged non-dev build with no `.build-env` falls back
      to the "dev" tier. */
  lemma SignalsCanDisagree(env: Env, marker: string)
    requires Trim(marker) == "production"
    requires "ELECTRON_IS_DEV" !in env
    ensures Classify(false, env, None, Some(marker)).isDev
    ensures Classify(false, env, None, Some(marker)).ProductionBuild()
    ensures !Classify(true, env, None, None).isDev
    ensures TierOf(Classify(true, env, None, None).buildEnv) == Development
  {
  }

  /** A marker written with a trailing newline (as `echo` writes it) still counts. */
  lemma MarkerWithNewline(text: string)
    requires text == "true\n"
    ensures IsDevBuild(true, map[], Some(text))
  {
    assert text == "" + "true" + "\n";
    TrimPadded("", "true", "\n");
  }
}
