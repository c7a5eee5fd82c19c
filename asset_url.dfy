/**
 * `assetUrl` of frontend/src/lib/utils.ts: turns a path the API returns
 * (such as "/uploads/x.jpg") into a URL on the API's origin, leaving
 * absolute URLs, protocol-relative URLs and data URLs as they are.
 */
module AssetUrl {
  import opened Common
  import opened Text

  /** The API base used when `VITE_API_URL` is unset or empty. */
  const DefaultApi := "http://localhost:5000/api"

  /** `/^(https?:)?\/\//i` or a `data:` prefix: the path is already a URL. */
  predicate IsAbsolute(p: string) {
    StartsWith(p, "//") || StartsWithIgnoreCase(p, "http://") || StartsWithIgnoreCase(p, "https://")
    || StartsWith(p, "data:")
  }

  /**
   * `apiUrl.replace(/\/?api\/?$/, '')`: the first (leftmost) match of an
   * optional slash, "api", an optional slash at the very end is removed,
   * so the longest such suffix goes.
   */
  function Origin(api: string): (o: string)
    ensures StartsWith(api, o)
    ensures |api| - |o| in {0, 3, 4, 5}
    ensures |o| == |api| <==> !EndsWith(api, "api") && !EndsWith(api, "api/")
    ensures EndsWith(api, "/api/") ==> |o| == |api| - 5
  {
    if EndsWith(api, "/api/") then api[..|api| - 5]
    else if EndsWith(api, "/api") || EndsWith(api, "api/") then api[..|api| - 4]
    else if EndsWith(api, "api") then api[..|api| - 3]
    else api
  }

  /** An API base ending in "/api" or "/api/" loses exactly that. */
  lemma OriginOfApiBase(o: string)
    ensures Origin(o + "/api") == o && Origin(o + "/api/") == o
  {
    assert (o + "/api")[..|o|] == o;
    assert (o + "/api/")[..|o|] == o;
    var s := o + "/api";
    assert !EndsWith(s, "/api/") by {
      if |s| >= 5 {
        assert s[|s| - 5..][4] == s[|s| - 1] == 'i';
      }
    }
    assert s[|s| - 4..] == "/api";
  }

  /** `path.startsWith('/') ? path : '/' + path`. */
  function Normalized(p: string): (n: string)
    ensures StartsWith(n, "/")
    ensures n == p || n == "/" + p
    ensures StartsWith(p, "/") <==> n == p
  {
    if StartsWith(p, "/") then p else "/" + p
  }

  /** A normalised path is left as it is. */
  lemma NormalizedIdempotent(p: string)
    ensures Normalized(Normalized(p)) == Normalized(p)
  {
    assert StartsWith(Normalized(p), "/");
  }

  /** `assetUrl(path)` with `VITE_API_URL` given as `apiEnv`. */
  function Resolve(path: Option<string>, apiEnv: Option<string>): (r: Option<string>)
    ensures r.None? <==> path.None? || path.value == ""
    ensures path.Some? && IsAbsolute(path.value) ==> r == path
    ensures path.Some? && path.value != "" && !IsAbsolute(path.value) ==>
              r == Some(Origin(ApiBase(apiEnv)) + Normalized(path.value))
  {
    if path.None? || path.value == "" then None
    else if IsAbsolute(path.value) then path
    else Some(Origin(ApiBase(apiEnv)) + Normalized(path.value))
  }

  /** `VITE_API_URL || 'http://localhost:5000/api'`. */
  function ApiBase(apiEnv: Option<string>): string {
    if apiEnv.None? || apiEnv.value == "" then DefaultApi else apiEnv.value
  }

  /** With the default base the origin is "http://localhost:5000", which is absolute. */
  lemma DefaultOrigin()
    ensures Origin(DefaultApi) == "http://localhost:5000"
    ensures IsAbsolute(Origin(DefaultApi))
  {
    OriginOfApiBase("http://localhost:5000");
    assert "http://localhost:5000" + "/api" == DefaultApi;
    assert StartsWithIgnoreCase("http://localhost:5000", "http://");
  }

  /** An absolute prefix keeps a string absolute. */
  lemma AbsolutePrefix(o: string, rest: string)
    requires IsAbsolute(o)
    ensures IsAbsolute(o + rest)
  {
    var s := o + rest;
    assert s[..|o|] == o;
    if StartsWithIgnoreCase(o, "http://") {
      assert StartsWithIgnoreCase(s, "http://");
    } else if StartsWithIgnoreCase(o, "https://") {
      assert StartsWithIgnoreCase(s, "https://");
    } else if StartsWith(o, "//") {
      assert s[..2] == o[..2];
    } else {
      assert s[..5] == o[..5];
    }
  }

  /**
   * Resolving twice is resolving once when the origin is absolute (as
   * with the default base) or empty (a base of just "/api").
   */
  lemma ResolveIdempotent(path: Option<string>, apiEnv: Option<string>)
    requires var o := Origin(ApiBase(apiEnv)); IsAbsolute(o) || o == ""
    ensures Resolve(Resolve(path, apiEnv), apiEnv) == Resolve(path, apiEnv)
  {
    if path.Some? && path.value != "" && !IsAbsolute(path.value) {
      if IsAbsolute(Origin(ApiBase(apiEnv))) {
        AbsolutePrefix(Origin(ApiBase(apiEnv)), Normalized(path.value));
      } else {
        EmptyOriginResolvesOnce(path.value, apiEnv);
      }
    }
  }

  /** With an empty origin a relative path resolves to its normalised self, which resolves to itself. */
  lemma EmptyOriginResolvesOnce(p: string, apiEnv: Option<string>)
    requires Origin(ApiBase(apiEnv)) == "" && p != "" && !IsAbsolute(p)
    ensures Resolve(Some(p), apiEnv) == Some(Normalized(p))
    ensures Resolve(Some(Normalized(p)), apiEnv) == Some(Normalized(p))
  {
    var n := Normalized(p);
    assert "" + n == n;
    NormalizedIdempotent(p);
    if !IsAbsolute(n) {
      assert Resolve(Some(n), apiEnv) == Some("" + Normalized(n));
    }
  }

  /**
   * With a relative base the result can be relative without a leading
   * slash, and resolving it again prepends the origin a second time.
   */
  lemma RelativeBaseNotIdempotent()
    ensures Resolve(Some("x"), Some("app/api")) == Some("app/x")
    ensures Resolve(Resolve(Some("x"), Some("app/api")), Some("app/api")) == Some("app/app/x")
  {
    var api := "app/api";
    assert EndsWith(api, "/api") && !EndsWith(api, "/api/");
    assert Origin(api) == "app";
    assert !StartsWith("x", "/");
    assert !IsAbsolute("x");
    assert !IsAbsolute("app/x") by {
      assert "app/x"[1] != "//"[1];
      assert "app/x"[0] != "data:"[0];
      assert LowerAscii("app/x"[0]) != LowerAscii("http://"[0]);
    }
    assert "app" + Normalized("x") == "app/x";
    assert Normalized("app/x") == "/app/x";
    assert "app" + "/app/x" == "app/app/x";
  }
}
