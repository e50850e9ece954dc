/** URI construction for service paths (`_extendBaseUrl`). */
module Uri {
  import opened Config
  import opened JsValues
  import opened Results
  import Versions

  /**
    `${v[i]}` in a template literal: the i-th version piece, or the text
    `undefined` when the version has fewer pieces.
   */
  function VersionSegment(v: seq<string>, i: nat): string {
    if i < |v| then v[i] else "undefined"
  }

  /** `/ica/rest/api/{v0}/{v1}/service`. */
  function ServiceBasePath(v: seq<string>): string {
    "/ica/rest/api/" + VersionSegment(v, 0) + "/" + VersionSegment(v, 1) + "/service"
  }

  /** The base URL the `production` flag selects. */
  function SelectedBase(c: Config): string {
    if c.production then c.productionBaseUrl else c.developmentBaseUrl
  }

  /**
    `_extendBaseUrl(path)`: the selected base URL, then the versioned service
    base path, then the caller's path, with nothing added or dropped.
   */
  function ExtendBaseUrl(c: Config, path: string): (uri: string)
    ensures |uri| == |SelectedBase(c)| + |ServiceBasePath(c.parsedVersion)| + |path|
    ensures c.production ==> uri[..|c.productionBaseUrl|] == c.productionBaseUrl
    ensures !c.production ==> uri[..|c.developmentBaseUrl|] == c.developmentBaseUrl
    ensures uri[|SelectedBase(c)|..|uri| - |path|] == ServiceBasePath(c.parsedVersion)
    ensures uri[|uri| - |path|..] == path
  {
    SelectedBase(c) + ServiceBasePath(c.parsedVersion) + path
  }

  /** The URI is the service prefix (selected base URL and versioned base path) followed by the path. */
  lemma ExtendBaseUrlPrefix(c: Config, path: string)
    ensures var prefix := SelectedBase(c) + ServiceBasePath(c.parsedVersion);
            var uri := ExtendBaseUrl(c, path);
            |prefix| <= |uri| && uri[..|prefix|] == prefix && uri[|prefix|..] == path
  {
  }

  /**
    Only the flag, the base URL it selects and the parsed version matter:
    credentials, the unselected base URL and the raw version string do not.
   */
  lemma UriDependsOnSelectionOnly(c1: Config, c2: Config, path: string)
    requires c1.production == c2.production
    requires SelectedBase(c1) == SelectedBase(c2)
    requires c1.parsedVersion == c2.parsedVersion
    ensures ExtendBaseUrl(c1, path) == ExtendBaseUrl(c2, path)
  {
  }

  /** Different paths give different URIs: the path can be read back off the URI. */
  lemma PathRecoverable(c: Config, p: string, q: string)
    requires ExtendBaseUrl(c, p) == ExtendBaseUrl(c, q)
    ensures p == q
  {
    var u := ExtendBaseUrl(c, p);
    assert |p| == |q|;
    assert p == u[|u| - |p|..] == q;
  }

  /** For a version `a.b` (with dot-free `a`, `b`) the path segments are `a` and `b`. */
  lemma TwoPartVersion(a: string, b: string)
    requires Versions.Dot !in a && Versions.Dot !in b
    ensures ServiceBasePath(Versions.Split(a + "." + b)) == "/ica/rest/api/" + a + "/" + b + "/service"
  {
    Versions.SplitAfterDot(a, b);
    Versions.SplitDotFree(b);
  }

  /** A version without a dot yields the segment `undefined`; nothing rejects it. */
  lemma DotlessVersion(version: string)
    requires Versions.Dot !in version
    ensures ServiceBasePath(Versions.Split(version)) == "/ica/rest/api/" + version + "/undefined/service"
  {
    Versions.SplitDotFree(version);
  }

  /**
    A non-empty version without a dot is accepted by the configuration, and
    the URIs built from it carry the segment `undefined`.
   */
  lemma DotlessVersionAccepted(user: string, password: string, version: string)
    requires |user| > 0 && |password| > 0
    requires |version| > 0 && Versions.Dot !in version
    ensures var r := Configure(map["userId" := Str(user), "password" := Str(password), "version" := Str(version)]);
            && r.Success? && r.value.version == version
            && ServiceBasePath(r.value.parsedVersion) == "/ica/rest/api/" + version + "/undefined/service"
  {
    var raw := map["userId" := Str(user), "password" := Str(password), "version" := Str(version)];
    assert raw.Keys == {"userId", "password", "version"};
    assert Effective(raw, UserId) == Str(user);
    assert Effective(raw, Password) == Str(password);
    assert Effective(raw, Production) == Bool(false);
    assert Effective(raw, ProductionBaseUrl) == Str("https://nami.dpsg.de");
    assert Effective(raw, DevelopmentBaseUrl) == Str("https://namitest.dpsg.de");
    assert Effective(raw, Version) == Str(version);
    assert Acceptable(raw) by {
      forall name | name in raw && raw[name] != Null
        ensures KeyOf(name).Some?
      {
      }
    }
    DotlessVersion(version);
  }

  /** The default configuration with the given credentials. */
  function DefaultsWith(user: string, password: string): Config {
    Config(user, password, false, "https://nami.dpsg.de", "https://namitest.dpsg.de", "1.1", ["1", "1"])
  }

  lemma ExampleUriText()
    ensures "https://namitest.dpsg.de" + "/ica/rest/api/1/1/service" + "/foo"
            == "https://namitest.dpsg.de/ica/rest/api/1/1/service/foo"
  {
  }

  lemma DefaultsUri(user: string, password: string)
    ensures ExtendBaseUrl(DefaultsWith(user, password), "/foo") == "https://namitest.dpsg.de/ica/rest/api/1/1/service/foo"
  {
    var c := DefaultsWith(user, password);
    assert ServiceBasePath(c.parsedVersion) == "/ica/rest/api/1/1/service";
    assert SelectedBase(c) == "https://namitest.dpsg.de";
    assert ExtendBaseUrl(c, "/foo") == "https://namitest.dpsg.de" + "/ica/rest/api/1/1/service" + "/foo";
    ExampleUriText();
  }

  /** Example: only credentials given, path `/foo`. */
  lemma DefaultConfigUri(user: string, password: string)
    requires |user| > 0 && |password| > 0
    ensures Configure(map["userId" := Str(user), "password" := Str(password)]) == Success(DefaultsWith(user, password))
    ensures ExtendBaseUrl(DefaultsWith(user, password), "/foo")
            == "https://namitest.dpsg.de/ica/rest/api/1/1/service/foo"
  {
    CredentialsOnly(user, password);
    DefaultsUri(user, password);
  }
}
