// The configuration resolved for one workload (pkg/configuration): values of the matched
// target override the global ones.

module Configuration {
  import opened Wrappers
  import opened GoStrings
  import opened OAuth2Config

  // A configured base64 text together with what it decodes to, if it decodes.
  datatype Base64 = Base64(text: string, decoded: Option<string>)

  // An absent section is the section with nothing set: the accessors do not distinguish them.
  // The name of an absent secret reference is empty.
  datatype Oauth2Proxy = Oauth2Proxy(scope: string, clientID: string, clientSecret: string, clientSecretRef: string,
                                     redirectURL: string, oidcIssuerURL: string,
                                     sslInsecureSkipVerify: Option<bool>,
                                     insecureOidcSkipIssuerVerification: Option<bool>,
                                     insecureOidcSkipNonce: Option<bool>,
                                     approvalPrompt: string, cookieRefresh: string, emailDomain: string,
                                     skipProviderButton: Option<bool>, codeChallengeMethod: string,
                                     extraArgs: seq<string>)

  datatype KubeRbacProxy = KubeRbacProxy(kubeConfigStr: Base64, kubeSecretRef: string)

  datatype Global = Global(oauth2Proxy: Oauth2Proxy, kubeRbacProxy: KubeRbacProxy, domainName: string,
                           oidcCABundle: Base64, oidcCASecretRef: string)

  datatype HTTPRouteConf = HTTPRouteConf(create: bool, hostPrefix: string, host: string,
                                         annotations: map<string, string>, labels: map<string, string>)

  datatype Port = NumberPort(number: int) | NamePort(name: string)

  datatype Target = Target(labelSelector: Option<map<string, string>>, targetPort: Port, targetProtocol: string,
                           httpRoute: Option<HTTPRouteConf>, own: Global)

  // What a workload or a pod is known by.
  datatype Identity = Identity(name: string, namespace: string)

  // The digest is that of randutils, in hexadecimal; names use its first six characters.
  function NameHash(digest: Digest, id: Identity): string {
    ShortHash(digest, id.name + "-" + id.namespace)
  }

  function ShortHash(digest: Digest, key: string): string {
    var s := digest(key);
    if |s| > 6 then s[..6] else s
  }

  function Override(own: string, global: string): string {
    if own != "" then own else global
  }

  function OverrideOr(own: string, global: string, default: string): string {
    if own != "" then own else if global != "" then global else default
  }

  function OverrideFlag(own: Option<bool>, global: Option<bool>, default: bool): bool {
    if own.Some? then own.value else if global.Some? then global.value else default
  }

  datatype Resolved = Resolved(target: Target, global: Global, workload: Identity) {

    function OidcCASecretName(): string {
      Override(target.own.oidcCASecretRef, global.oidcCASecretRef)
    }

    // A target bundle that does not decode hides the global one.
    function OidcCABundle(): string {
      var bundle := if target.own.oidcCABundle.text != "" then target.own.oidcCABundle else global.oidcCABundle;
      if bundle.text == "" || bundle.decoded.None? then "" else bundle.decoded.value
    }

    function ClientID(): string {
      Override(target.own.oauth2Proxy.clientID, global.oauth2Proxy.clientID)
    }

    function ClientSecret(): string {
      Override(target.own.oauth2Proxy.clientSecret, global.oauth2Proxy.clientSecret)
    }

    function ClientSecretName(): string {
      Override(target.own.oauth2Proxy.clientSecretRef, global.oauth2Proxy.clientSecretRef)
    }

    function Scope(): string {
      Override(target.own.oauth2Proxy.scope, global.oauth2Proxy.scope)
    }

    function Host(digest: Digest): string {
      var prefix := if target.httpRoute.Some? && target.httpRoute.value.hostPrefix != ""
                    then target.httpRoute.value.hostPrefix + "-" + NameHash(digest, workload)
                    else workload.name + "-" + workload.namespace;
      if target.httpRoute.Some? && target.httpRoute.value.host != "" then
        var cut := Cut(target.httpRoute.value.host, '.');
        WithDomain(cut.0, cut.1)
      else
        WithDomain(prefix, global.domainName)
    }

    // The global redirect URL is never used.
    function RedirectURL(digest: Digest): string {
      if target.own.oauth2Proxy.redirectURL != "" then target.own.oauth2Proxy.redirectURL else Callback(Host(digest))
    }

    function OidcIssuerURL(): string {
      Override(target.own.oauth2Proxy.oidcIssuerURL, global.oauth2Proxy.oidcIssuerURL)
    }

    function SslInsecureSkipVerify(): bool {
      OverrideFlag(target.own.oauth2Proxy.sslInsecureSkipVerify, global.oauth2Proxy.sslInsecureSkipVerify, false)
    }

    function InsecureOidcSkipIssuerVerification(): bool {
      OverrideFlag(target.own.oauth2Proxy.insecureOidcSkipIssuerVerification,
                   global.oauth2Proxy.insecureOidcSkipIssuerVerification, false)
    }

    function InsecureOidcSkipNonce(): bool {
      OverrideFlag(target.own.oauth2Proxy.insecureOidcSkipNonce, global.oauth2Proxy.insecureOidcSkipNonce, false)
    }

    function ApprovalPrompt(): string {
      OverrideOr(target.own.oauth2Proxy.approvalPrompt, global.oauth2Proxy.approvalPrompt, "auto")
    }

    function CookieRefresh(): string {
      OverrideOr(target.own.oauth2Proxy.cookieRefresh, global.oauth2Proxy.cookieRefresh, "3600s")
    }

    function EmailDomain(): string {
      OverrideOr(target.own.oauth2Proxy.emailDomain, global.oauth2Proxy.emailDomain, "*")
    }

    function SkipProviderButton(): bool {
      OverrideFlag(target.own.oauth2Proxy.skipProviderButton, global.oauth2Proxy.skipProviderButton, true)
    }

    function CodeChallengeMethod(): string {
      OverrideOr(target.own.oauth2Proxy.codeChallengeMethod, global.oauth2Proxy.codeChallengeMethod, "S256")
    }

    function ExtraArgs(): seq<string> {
      if target.own.oauth2Proxy.extraArgs != [] then target.own.oauth2Proxy.extraArgs
      else global.oauth2Proxy.extraArgs
    }

    function KubeSecretName(): string {
      Override(target.own.kubeRbacProxy.kubeSecretRef, global.kubeRbacProxy.kubeSecretRef)
    }

    function KubeConfigStr(): Base64 {
      if target.own.kubeRbacProxy.kubeConfigStr.text != "" then target.own.kubeRbacProxy.kubeConfigStr
      else global.kubeRbacProxy.kubeConfigStr
    }

    function UpstreamTarget(): string {
      UpstreamText(target.targetProtocol, target.targetPort)
    }

    predicate ShallCreateHTTPRoute() {
      target.httpRoute.Some? && target.httpRoute.value.create
    }
  }

  function WithDomain(prefix: string, domain: string): string {
    if domain == "" then prefix else prefix + "." + domain
  }

  const HTTPS := "https://"
  const CALLBACK := "/oauth2/callback"

  function Callback(host: string): string {
    HTTPS + host + CALLBACK
  }

  const PROTOCOL := "protocol="
  const PORT := " port="

  function PortText(port: Port): string {
    match port
    case NumberPort(number) => FormatInt(number)
    case NamePort(name) => name
  }

  function UpstreamText(protocol: string, port: Port): string {
    PROTOCOL + (if protocol == "https" then "https" else "http") + "," + PORT + PortText(port)
  }

  // The options of the rendered proxy configuration, with one of the two ways to pass a
  // client secret.
  function ProxyOptions(rc: Resolved, digest: Digest, clientSecretFile: string, clientSecret: string): Options {
    Options(rc.ClientID(), clientSecretFile, clientSecret, rc.Scope(), rc.RedirectURL(digest), rc.OidcIssuerURL(),
            rc.SslInsecureSkipVerify(), rc.InsecureOidcSkipIssuerVerification(), rc.InsecureOidcSkipNonce())
  }

  // A default redirect URL gives the host back when scheme and path are cut off.
  lemma CallbackTrims(host: string)
    ensures TrimSuffix(TrimPrefix(Callback(host), HTTPS), CALLBACK) == host
  {
    var url := Callback(host);
    assert url == HTTPS + (host + CALLBACK);
    assert TrimPrefix(url, HTTPS) == host + CALLBACK;
  }
}
