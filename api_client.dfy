/** The frontend's HTTP client setup: the API base URL and the request interceptor. */
module ApiClient {
  import opened Outcomes
  import opened Text

  /** The production placeholder used when no URL is configured. */
  const Placeholder: string := "https://your-backend.railway.app/api"

  /** `url.replace(/\/$/, '')`: drops one `/` at the very end, if there is one. */
  function StripTrailingSlash(url: string): (r: string)
    ensures EndsWith(url, "/") ==> r + "/" == url
    ensures !EndsWith(url, "/") ==> r == url
  {
    if EndsWith(url, "/") then url[..|url| - 1] else url
  }

  /**
   * `getApiBaseUrl`: the configured `VITE_API_URL` without its trailing
   * slash and with `/api` at the end, or the placeholder when the variable
   * is unset or empty.
   */
  function GetApiBaseUrl(env: Option<string>): (r: string)
    ensures env.None? || env.value == "" ==> r == Placeholder
    ensures EndsWith(r, "/api")
    ensures env.Some? && env.value != "" ==>
      var normalized := StripTrailingSlash(env.value);
      StartsWith(r, normalized) && (r == normalized || r == normalized + "/api")
    ensures env.Some? && env.value != "" && !EndsWith(StripTrailingSlash(env.value), "/api") ==>
      r == StripTrailingSlash(env.value) + "/api"
    ensures env.Some? && env.value != "" && EndsWith(StripTrailingSlash(env.value), "/api") ==>
      r == StripTrailingSlash(env.value)
  {
    if env.Some? && env.value != "" then
      var normalized := StripTrailingSlash(env.value);
      if EndsWith(normalized, "/api") then normalized else normalized + "/api"
    else Placeholder
  }

  /** A result fed back in as the configuration comes out unchanged. */
  lemma BaseUrlIdempotent(env: Option<string>)
    ensures GetApiBaseUrl(Some(GetApiBaseUrl(env))) == GetApiBaseUrl(env)
  {
    var r := GetApiBaseUrl(env);
    assert r[|r| - 1] == "/api"[3];
    assert !EndsWith(r, "/");
  }

  /** Only one trailing slash goes: `x//` becomes `x/`, and then `/api` is appended. */
  lemma OneSlashRemoved(x: string)
    ensures GetApiBaseUrl(Some(x + "//")) == x + "//api"
  {
    var url := x + "//";
    assert EndsWith(url, "/");
    assert StripTrailingSlash(url) == x + "/";
    assert !EndsWith(x + "/", "/api") by {
      assert (x + "/")[|x + "/"| - 1] == '/';
    }
  }

  /** A URL already ending in `/api`, with or without a final slash, keeps its single `/api`. */
  lemma ApiSuffixKept(x: string)
    ensures GetApiBaseUrl(Some(x + "/api")) == x + "/api"
    ensures GetApiBaseUrl(Some(x + "/api/")) == x + "/api"
  {
    assert EndsWith(x + "/api", "/api");
    assert !EndsWith(x + "/api", "/") by {
      assert (x + "/api")[|x + "/api"| - 1] == 'i';
    }
    assert EndsWith(x + "/api/", "/");
    assert StripTrailingSlash(x + "/api/") == x + "/api";
  }

  /**
   * The header map after the request interceptor: `Authorization` set to
   * `Bearer <token>` when a non-empty token is stored, and nothing else
   * touched.
   */
  function WithAuthorization(headers: map<string, string>, stored: Option<string>): (r: map<string, string>)
    ensures forall k :: k != "Authorization" ==> (k in r <==> k in headers)
    ensures forall k :: k != "Authorization" && k in headers ==> r[k] == headers[k]
    ensures stored.Some? && stored.value != "" ==> "Authorization" in r && r["Authorization"] == "Bearer " + stored.value
    ensures stored.None? || stored.value == "" ==> r == headers
  {
    if stored.Some? && stored.value != "" then headers["Authorization" := "Bearer " + stored.value]
    else headers
  }

  /** The per-request configuration the interceptor receives and changes in place. */
  class RequestConfig {
    var headers: map<string, string>

    constructor (headers: map<string, string>)
      ensures this.headers == headers
    {
      this.headers := headers;
    }

    /** The request interceptor: `if (token) config.headers.Authorization = \`Bearer ${token}\``. */
    method AttachToken(stored: Option<string>)
      modifies this
      ensures headers == WithAuthorization(old(headers), stored)
    {
      if stored.Some? && stored.value != "" {
        headers := headers["Authorization" := "Bearer " + stored.value];
      }
    }
  }
}
