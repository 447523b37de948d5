/** frontend1/src/api/axiosClient.js: the request interceptor that attaches the session
    token to every request except the public authentication calls. */
module AxiosClient {
  import opened Base
  import AuthContext

  const PublicRoutes: seq<string> := ["/auth/login", "/auth/signup", "/auth/owner/signup"]
  const AuthorizationHeader: string := "Authorization"

  /** The headers a request leaves the interceptor with, given the stored token. */
  function Intercepted(url: string, headers: map<string, string>, token: Option<string>): (h: map<string, string>)
    ensures h.Keys == headers.Keys || h.Keys == headers.Keys + {AuthorizationHeader}
  {
    if url in PublicRoutes then headers
    else if Truthy(token) then headers[AuthorizationHeader := "Bearer " + token.value]
    else headers
  }

  /** Public calls and calls without a token go out as they came; every other call carries
      `Bearer <token>`; no header other than Authorization is ever touched. */
  lemma InterceptedSpec(url: string, headers: map<string, string>, token: Option<string>)
    ensures url in PublicRoutes || !Truthy(token) ==> Intercepted(url, headers, token) == headers
    ensures url !in PublicRoutes && Truthy(token) ==>
      && AuthorizationHeader in Intercepted(url, headers, token)
      && Intercepted(url, headers, token)[AuthorizationHeader] == "Bearer " + token.value
    ensures forall k | k != AuthorizationHeader ::
      && (k in Intercepted(url, headers, token) <==> k in headers)
      && (k in headers ==> Intercepted(url, headers, token)[k] == headers[k])
  {
  }

  /** The login call never carries the token of an earlier session. */
  lemma LoginCallCarriesNoToken(headers: map<string, string>, token: Option<string>)
    requires AuthorizationHeader !in headers
    ensures AuthorizationHeader !in Intercepted("/auth/login", headers, token)
  {
  }

  /** An outgoing request: its url and its headers, which the interceptor changes in place. */
  class RequestConfig {
    const url: string
    var headers: map<string, string>

    constructor (url: string, headers: map<string, string>)
      ensures this.url == url && this.headers == headers
    {
      this.url := url;
      this.headers := headers;
    }
  }

  /** The interceptor: read the stored token, leave public calls alone, otherwise set the
      Authorization header when a token is stored; the same config is handed on. */
  method Intercept(config: RequestConfig, storage: AuthContext.Storage) returns (out: RequestConfig)
    modifies config
    ensures out == config
    ensures config.headers == Intercepted(config.url, old(config.headers), storage.GetItem(AuthContext.TokenKey))
  {
    var token := storage.GetItem(AuthContext.TokenKey);
    if config.url in PublicRoutes {
      return config;
    }
    if Truthy(token) {
      config.headers := config.headers[AuthorizationHeader := "Bearer " + token.value];
    }
    out := config;
  }
}
