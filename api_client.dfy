/** The request interceptor of the API client (src/utils/axiosInstance.ts):
    it adds the session's bearer token to the headers of every request
    except those to the login and signup endpoints. */
module ApiClient {
  import opened Wrappers
  import opened Text
  import opened Types

  /** A request URL that ends in "/login" or "/signup"; an absent URL is
      not one. */
  predicate IsAuthEndpoint(url: Option<string>) {
    url.Some? && (EndsWith(url.value, "/login") || EndsWith(url.value, "/signup"))
  }

  /** The headers after the interceptor: on other endpoints, with a
      non-empty session token, `Authorization` becomes "Bearer " and the
      token; otherwise the headers are as they were. */
  function WithAuthorization(headers: map<string, string>, url: Option<string>, token: Option<string>)
    : (r: map<string, string>)
    ensures IsAuthEndpoint(url) || !IsPresent(token) ==> r == headers
    ensures !IsAuthEndpoint(url) && IsPresent(token) ==>
      r.Keys == headers.Keys + {"Authorization"} && r["Authorization"] == "Bearer " + token.value
    ensures forall k :: k in headers && k != "Authorization" ==> k in r && r[k] == headers[k]
  {
    if !IsAuthEndpoint(url) && IsPresent(token) then headers["Authorization" := "Bearer " + token.value]
    else headers
  }

  /** Running the interceptor again changes nothing more. */
  lemma WithAuthorizationIdempotent(headers: map<string, string>, url: Option<string>, token: Option<string>)
    ensures WithAuthorization(WithAuthorization(headers, url, token), url, token) ==
      WithAuthorization(headers, url, token)
  {
  }

  /** The login and signup requests never carry the session's token unless
      the caller put it there. */
  lemma AuthEndpointsKeepHeaders(headers: map<string, string>, path: string, token: Option<string>)
    requires "Authorization" !in headers
    ensures "Authorization" !in WithAuthorization(headers, Some(path + "/login"), token)
    ensures "Authorization" !in WithAuthorization(headers, Some(path + "/signup"), token)
  {
    assert EndsWith(path + "/login", "/login") by {
      assert (path + "/login")[|path|..] == "/login";
    }
    assert EndsWith(path + "/signup", "/signup") by {
      assert (path + "/signup")[|path|..] == "/signup";
    }
  }

  /** The request's configuration as the interceptor sees it. */
  class RequestConfig {
    var url: Option<string>
    var headers: map<string, string>

    constructor(url: Option<string>, headers: map<string, string>)
      ensures this.url == url && this.headers == headers
    {
      this.url := url;
      this.headers := headers;
    }

    /** The interceptor: it updates the headers in place and leaves the URL
        alone. */
    method ApplyAuthorization(token: Option<string>)
      modifies this
      ensures url == old(url)
      ensures headers == WithAuthorization(old(headers), old(url), token)
    {
      if !IsAuthEndpoint(url) {
        if IsPresent(token) {
          headers := headers["Authorization" := "Bearer " + token.value];
        }
      }
    }
  }
}
