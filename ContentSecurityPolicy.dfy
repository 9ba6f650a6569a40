/** The Content-Security-Policy header the host process adds to every response. The script
    policy follows the dev-build signal; the connect policy follows the build tier read
    from `.build-env`. The three backend addresses are build-time constants, each possibly
    empty. */
module ContentSecurityPolicy {
  import opened Text
  import opened BuildEnvironment

  /** The backend API addresses baked in at build time. */
  datatype Backends = Backends(dev: string, staging: string, production: string)

  /** One directive: its name and its source expressions, in order. */
  datatype Directive = Directive(name: string, sources: seq<string>)

  /** A directive as written in the header: the name, then the sources, space-separated. */
  function Render(d: Directive): (r: string)
    ensures IsPrefix(d.name + " ", r)
  {
    d.name + " " + Join(d.sources, " ")
  }

  const LocalDevSources: seq<string> := ["http://localhost:*", "ws://localhost:*", "wss://localhost:*"]

  /** A backend address, listed only when configured. */
  function IfConfigured(backend: string): (r: seq<string>)
    ensures r == [] <==> backend == ""
    ensures forall s :: s in r ==> s == backend
  {
    if backend != "" then [backend] else []
  }

  /** The `script-src` sources: inline scripts and eval are allowed for dev builds only. */
  function ScriptSources(isDev: bool): (r: seq<string>)
    ensures |r| >= 1 && r[0] == "'self'"
    ensures "'unsafe-eval'" in r <==> isDev
    ensures "'unsafe-inline'" in r <==> isDev
  {
    if isDev then ["'self'", "'unsafe-inline'", "'unsafe-eval'"] else ["'self'"]
  }

  /** The `connect-src` sources of a tier: always the app itself and the connectivity
      probe, then the tier's backend if configured; the development tier also admits
      local servers over http, ws and wss. */
  function ConnectSources(tier: Tier, backends: Backends): (r: seq<string>)
    ensures |r| >= 2 && r[..2] == ["'self'", "https://1.1.1.1"]
  {
    ["'self'", "https://1.1.1.1"] +
      match tier
      case Staging => IfConfigured(backends.staging)
      case Production => IfConfigured(backends.production)
      case Development => LocalDevSources + IfConfigured(backends.dev)
  }

  /** The `connectSources` array, built by successive pushes as the header callback does. */
  method BuildConnectSources(buildEnv: string, backends: Backends) returns (sources: seq<string>)
    ensures sources == ConnectSources(TierOf(buildEnv), backends)
  {
    var isStaging := IsStaging(buildEnv);
    var isProduction := IsProduction(buildEnv);
    sources := ["'self'", "https://1.1.1.1"];
    if isStaging {
      if backends.staging != "" {
        sources := sources + [backends.staging];
      }
    } else if isProduction {
      if backends.production != "" {
        sources := sources + [backends.production];
      }
    } else {
      sources := sources + ["http://localhost:*"];
      sources := sources + ["ws://localhost:*"];
      sources := sources + ["wss://localhost:*"];
      if backends.dev != "" {
        sources := sources + [backends.dev];
      }
    }
  }

  /** The six directives, in header order. */
  function Directives(isDev: bool, buildEnv: string, backends: Backends): (ds: seq<Directive>)
    ensures |ds| == 6
    ensures ds[1] == Directive("script-src", ScriptSources(isDev))
    ensures ds[5] == Directive("connect-src", ConnectSources(TierOf(buildEnv), backends))
    ensures forall k :: 0 <= k < 6 ==> |ds[k].sources| >= 1 && ds[k].sources[0] == "'self'"
  {
    [ Directive("default-src", ["'self'"]),
      Directive("script-src", ScriptSources(isDev)),
      Directive("style-src", ["'self'", "'unsafe-inline'"]),
      Directive("font-src", ["'self'", "data:"]),
      Directive("img-src", ["'self'", "file:", "data:", "blob:"]),
      Directive("connect-src", ConnectSources(TierOf(buildEnv), backends)) ]
  }

  /** The rendered directives, in order. */
  function RenderAll(ds: seq<Directive>): (r: seq<string>)
    ensures |r| == |ds|
    ensures forall k :: 0 <= k < |ds| ==> r[k] == Render(ds[k])
  {
    if ds == [] then [] else [Render(ds[0])] + RenderAll(ds[1..])
  }

  /** The header value: the rendered directives joined by "; ". */
  function Policy(isDev: bool, buildEnv: string, backends: Backends): string {
    Join(RenderAll(Directives(isDev, buildEnv, backends)), "; ")
  }

  /** The response headers with the policy set: every other header is kept, and any
      policy the server sent is replaced by this one. */
  function WithPolicy(headers: map<string, seq<string>>, csp: string): (r: map<string, seq<string>>)
    ensures r.Keys == headers.Keys + {"Content-Security-Policy"}
    ensures r["Content-Security-Policy"] == [csp]
    ensures forall h :: h in headers && h != "Content-Security-Policy" ==> r[h] == headers[h]
  {
    headers["Content-Security-Policy" := [csp]]
  }

  /** Outside the development tier no local server is reachable: the sources are the app
      itself, the connectivity probe and that tier's backend, nothing else. */
  lemma NoLocalServersOutsideDevelopment(buildEnv: string, backends: Backends)
    requires TierOf(buildEnv) != Development
    ensures forall s :: s in ConnectSources(TierOf(buildEnv), backends) ==>
      s == "'self'" || s == "https://1.1.1.1"
      || (IsStaging(buildEnv) && s == backends.staging)
      || (IsProduction(buildEnv) && s == backends.production)
  {
  }

  /** The development tier admits the three local-server sources and, when configured,
      the dev backend, after the two fixed sources. */
  lemma DevelopmentSources(buildEnv: string, backends: Backends)
    requires !IsStaging(buildEnv) && !IsProduction(buildEnv)
    ensures ConnectSources(TierOf(buildEnv), backends)[2..5] == LocalDevSources
    ensures ConnectSources(TierOf(buildEnv), backends)[5..] == IfConfigured(backends.dev)
  {
  }

  /** An empty backend address never becomes a source. */
  lemma UnconfiguredBackendOmitted(buildEnv: string, backends: Backends)
    requires TierOf(buildEnv) == Production && backends.production == ""
    ensures ConnectSources(TierOf(buildEnv), backends) == ["'self'", "https://1.1.1.1"]
  {
  }

  /** The production connect directive with a configured backend. */
  lemma ProductionConnectDirective(buildEnv: string, backends: Backends)
    requires buildEnv == "production" && backends.production != ""
    ensures Render(Directives(false, buildEnv, backends)[5])
      == "connect-src 'self' https://1.1.1.1 " + backends.production
  {
    var srcs := ["'self'", "https://1.1.1.1", backends.production];
    assert ConnectSources(TierOf(buildEnv), backends) == srcs;
    assert srcs[1..] == ["https://1.1.1.1", backends.production];
    assert srcs[1..][1..] == [backends.production];
    assert Join(srcs[1..], " ") == "https://1.1.1.1" + " " + backends.production;
    assert Join(srcs, " ") == "'self'" + " " + ("https://1.1.1.1" + " " + backends.production);
  }

  /** Every piece of a "; "-joined list occurs in the joined text. */
  lemma {:induction false} JoinedPieces(pieces: seq<string>, k: int)
    requires 0 <= k < |pieces|
    ensures Contains(Join(pieces, "; "), pieces[k])
    decreases |pieces|
  {
    if k == 0 {
      if |pieces| == 1 {
        ContainsInfix("", pieces[0], "");
        assert "" + pieces[0] + "" == Join(pieces, "; ");
      } else {
        ContainsInfix("", pieces[0], "; " + Join(pieces[1..], "; "));
        assert "" + pieces[0] + ("; " + Join(pieces[1..], "; ")) == Join(pieces, "; ");
      }
    } else {
      JoinedPieces(pieces[1..], k - 1);
      assert pieces[1..][k - 1] == pieces[k];
      var rest := Join(pieces[1..], "; ");
      ContainsOccurs(rest, pieces[k]);
      var i :| OccursAt(rest, pieces[k], i);
      var pre := pieces[0] + "; ";
      assert Join(pieces, "; ") == pre + rest;
      assert (pre + rest)[|pre| + i..|pre| + i + |pieces[k]|] == rest[i..i + |pieces[k]|] == pieces[k];
      assert OccursAt(Join(pieces, "; "), pieces[k], |pre| + i);
      ContainsOccurs(Join(pieces, "; "), pieces[k]);
    }
  }

  /** The header carries the script directive for the build's dev signal. */
  lemma PolicyCarriesScriptDirective(isDev: bool, buildEnv: string, backends: Backends)
    ensures Contains(Policy(isDev, buildEnv, backends), Render(Directive("script-src", ScriptSources(isDev))))
  {
    JoinedPieces(RenderAll(Directives(isDev, buildEnv, backends)), 1);
  }
}
