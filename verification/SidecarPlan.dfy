// What the configuration and the owner decide about an admission: the secrets in the sidecar
// volumes, the arguments of the sidecars and the annotations (pkg/webhook/modifiers.go).

module SidecarPlan {
  import opened Wrappers
  import opened GoStrings
  import opened OAuth2Config
  import opened Configuration
  import opened RedirectArgs
  import opened PodMutation

  const HOST_KEY := "oidc-application-controller/host"
  const TARGET_KEY := "oidc-application-controller/target"
  const CHECKSUM_KEY := "oidc-application-controller/oauth2-secret-checksum"

  // What the process is configured with outside of the targets.
  datatype Environment = Environment(digest: Digest, template: string, oauth2Image: string, rbacImage: string,
                                     pullSecret: string)

  // ---------------------------------------------------------------- secrets in the volumes

  predicate ShallAddKubeConfig(rc: Resolved) {
    rc.KubeConfigStr().text != "" || rc.KubeSecretName() != ""
  }

  predicate ShallAddOidcCa(rc: Resolved) {
    rc.OidcCABundle() != "" || rc.OidcCASecretName() != ""
  }

  const RESOURCE_ATTRIBUTES := "resource-attributes"
  const KUBECONFIG := "kubeconfig"
  const OIDC_CA := "oidc-ca"

  function Named(name: string, suffix: string): string {
    name + "-" + suffix
  }

  function KubeConfigSecret(rc: Resolved, suffix: string): string {
    if rc.KubeConfigStr().text != "" then Named(KUBECONFIG, suffix)
    else if rc.KubeSecretName() != "" then rc.KubeSecretName()
    else Named(KUBECONFIG, suffix)
  }

  function OidcCaSecret(rc: Resolved, suffix: string): string {
    if rc.OidcCABundle() != "" then Named(OIDC_CA, suffix) else rc.OidcCASecretName()
  }

  // The (volume, secret) pairs in the order in which they are added.
  function OAuth2Secrets(rc: Resolved, suffix: string): seq<(string, string)> {
    [(OAUTH2_PROXY, Named(OAUTH2_PROXY, suffix))]
    + (if ShallAddOidcCa(rc) then [(OAUTH2_PROXY, OidcCaSecret(rc, suffix))] else [])
    + (if rc.ClientSecretName() != "" then [(OAUTH2_PROXY, rc.ClientSecretName())] else [])
  }

  function KubeRbacSecrets(rc: Resolved, suffix: string): seq<(string, string)> {
    [(KUBE_RBAC_PROXY, Named(RESOURCE_ATTRIBUTES, suffix))]
    + (if ShallAddKubeConfig(rc) then [(KUBE_RBAC_PROXY, KubeConfigSecret(rc, suffix))] else [])
    + (if ShallAddOidcCa(rc) then [(KUBE_RBAC_PROXY, OidcCaSecret(rc, suffix))] else [])
  }

  function SecretsOf(rc: Resolved, suffix: string): seq<(string, string)> {
    OAuth2Secrets(rc, suffix) + KubeRbacSecrets(rc, suffix)
  }

  // ---------------------------------------------------------------- arguments

  function Flag(name: string, value: string): string {
    "--" + name + "=" + value
  }

  function Flags(flags: seq<(string, string)>): seq<string> {
    if flags == [] then [] else [Flag(flags[0].0, flags[0].1)] + Flags(flags[1..])
  }

  function ProviderFlags(rc: Resolved): seq<(string, string)> {
    [("provider", "oidc"), ("config", "/etc/oauth2-proxy/oauth2-proxy.cfg"),
     ("code-challenge-method", rc.CodeChallengeMethod()), ("pass-authorization-header", "true"),
     ("cookie-secret-file", "/etc/oauth2-proxy/cookie-secret"), ("cookie-refresh", rc.CookieRefresh()),
     ("http-address", "0.0.0.0:8000")]
  }

  function RequestFlags(rc: Resolved): seq<(string, string)> {
    [("email-domain", rc.EmailDomain()), ("reverse-proxy", "true"),
     ("skip-provider-button", FormatBool(rc.SkipProviderButton())), ("skip-jwt-bearer-tokens", "true"),
     ("approval-prompt", rc.ApprovalPrompt()), ("upstream", "http://127.0.0.1:8100")]
  }

  function OidcCaFlags(rc: Resolved): seq<(string, string)> {
    if ShallAddOidcCa(rc) then [("provider-ca-file", "/etc/oauth2-proxy/ca.crt")] else []
  }

  function FixedArgs(rc: Resolved): seq<string> {
    Flags(ProviderFlags(rc) + RequestFlags(rc) + OidcCaFlags(rc))
  }

  // The extra arguments that match ^--[a-z][a-z0-9-]+(=.*)?$; a dot matches no line break.
  predicate IsLower(c: char) {
    'a' <= c <= 'z'
  }

  predicate ValidArg(arg: string) {
    var name := Cut(arg, '=').0;
    && |name| >= 4 && name[0] == '-' && name[1] == '-' && IsLower(name[2])
    && (forall i :: 3 <= i < |name| ==> IsLower(name[i]) || IsDigit(name[i]) || name[i] == '-')
    && '\n' !in Cut(arg, '=').1
  }

  function ValidArgs(args: seq<string>): seq<string> {
    if args == [] then []
    else if ValidArg(args[0]) then [args[0]] + ValidArgs(args[1..])
    else ValidArgs(args[1..])
  }

  function OAuth2Args(rc: Resolved): seq<string> {
    FixedArgs(rc) + ValidArgs(rc.ExtraArgs())
  }

  function RbacArgsOf(rc: Resolved): (seq<string>, seq<string>) {
    ([Flag("insecure-listen-address", "0.0.0.0:8100"),
      Flag("oidc-clientID", rc.ClientID()),
      Flag("oidc-issuer", rc.OidcIssuerURL())],
     [Flag("config-file", "/etc/kube-rbac-proxy/config-file.yaml")]
     + (if ShallAddKubeConfig(rc) then [Flag("kubeconfig", "/etc/kube-rbac-proxy/kubeconfig")] else [])
     + (if ShallAddOidcCa(rc) then [Flag("oidc-ca-file", "/etc/kube-rbac-proxy/ca.crt")] else []))
  }

  // ---------------------------------------------------------------- annotations

  const DEV_NULL := "/dev/null"

  // get2ProxySecretChecksum knows the inline client secret only.
  function WebhookOptions(rc: Resolved, digest: Digest): Options {
    if rc.ClientSecret() == "" then ProxyOptions(rc, digest, DEV_NULL, "")
    else ProxyOptions(rc, digest, "", rc.ClientSecret())
  }

  function WebhookConfig(rc: Resolved, env: Environment): string {
    Render(env.template, SettingsOf(WebhookOptions(rc, env.digest)))
  }

  function AnnotationsOf(rc: Resolved, env: Environment): map<string, string> {
    map[HOST_KEY := rc.Host(env.digest), TARGET_KEY := rc.UpstreamTarget(),
        CHECKSUM_KEY := env.digest(WebhookConfig(rc, env))]
  }

  // fetchTargetSuffix
  function SuffixOf(annotated: Option<string>, digest: Digest, id: Identity): string {
    if annotated.Some? then annotated.value else NameHash(digest, id)
  }

  // The host a StatefulSet pod's redirect URL starts from.
  function RedirectBase(rc: Resolved, digest: Digest): string {
    if rc.RedirectURL(digest) != "" then TrimSuffix(TrimPrefix(rc.RedirectURL(digest), HTTPS), CALLBACK)
    else rc.Host(digest)
  }

  function PlanOf(rc: Resolved, ownerSuffix: Option<string>, pod: Identity, env: Environment): Plan {
    Plan(AnnotationsOf(rc, env), NameHash(env.digest, pod), rc.UpstreamTarget(),
         SecretsOf(rc, SuffixOf(ownerSuffix, env.digest, rc.workload)),
         env.oauth2Image, OAuth2Args(rc), env.rbacImage, RbacArgsOf(rc), env.pullSecret,
         RedirectBase(rc, env.digest))
  }

  // ---------------------------------------------------------------- what the plan promises

  // The upstream tuple reads back, whatever characters the port name consists of.
  lemma UpstreamReadsBack(protocol: string, port: Port)
    ensures ProtocolOf(UpstreamText(protocol, port)) == if protocol == "https" then "https" else "http"
    ensures PortOf(UpstreamText(protocol, port)) == PortText(port)
  {
    var p := if protocol == "https" then "https" else "http";
    var before, after := PROTOCOL + p, PORT + PortText(port);
    var text := UpstreamText(protocol, port);
    assert text == before + [','] + after;
    NoComma();
    assert ',' !in p;
    CutAt(before, ',', after);
    assert before[|PROTOCOL|..] == p && after[|PORT|..] == PortText(port);
  }

  lemma NoComma()
    ensures ',' !in PROTOCOL && ',' !in "https" && ',' !in "http"
  {
  }

  predicate Plain(flags: seq<(string, string)>) {
    forall i :: 0 <= i < |flags| ==> |flags[i].0| >= 3 && (flags[i].0[0] != 'r' || flags[i].0[2] != 'd')
  }

  lemma {:induction false} PlainFlags(flags: seq<(string, string)>)
    requires Plain(flags)
    ensures forall i :: 0 <= i < |Flags(flags)| ==> !IsRedirect(Flags(flags)[i])
  {
    if flags != [] {
      PlainFlags(flags[1..]);
      var arg := Flag(flags[0].0, flags[0].1);
      assert arg[2] == flags[0].0[0] && arg[4] == flags[0].0[2];
    }
  }

  lemma ProviderPlain(rc: Resolved)
    ensures Plain(ProviderFlags(rc))
  {
  }

  lemma RequestPlain(rc: Resolved)
    ensures Plain(RequestFlags(rc))
  {
  }

  lemma OidcCaPlain(rc: Resolved)
    ensures Plain(OidcCaFlags(rc))
  {
  }

  lemma FixedArgsPlain(rc: Resolved)
    ensures forall i :: 0 <= i < |FixedArgs(rc)| ==> !IsRedirect(FixedArgs(rc)[i])
  {
    ProviderPlain(rc);
    RequestPlain(rc);
    OidcCaPlain(rc);
    PlainFlags(ProviderFlags(rc) + RequestFlags(rc) + OidcCaFlags(rc));
  }

  // The rendered arguments put two redirect URLs side by side if and only if the valid extra
  // arguments do.
  lemma NeighboursAreExtra(rc: Resolved)
    ensures Neighbours(OAuth2Args(rc)) <==> Neighbours(ValidArgs(rc.ExtraArgs()))
  {
    FixedArgsPlain(rc);
    PlainPrefix(FixedArgs(rc), ValidArgs(rc.ExtraArgs()));
  }

  lemma PlainPrefix(plain: seq<string>, args: seq<string>)
    requires forall i :: 0 <= i < |plain| ==> !IsRedirect(plain[i])
    ensures Neighbours(plain + args) <==> Neighbours(args)
  {
    var all := plain + args;
    assert all[|plain|..] == args;
    if Neighbours(args) {
      NeighboursLater(all, |plain|);
    }
    if Neighbours(all) {
      var i, j :| 0 <= i < j < |all| && j == i + 1 && IsRedirect(all[i]) && IsRedirect(all[j]);
      assert i >= |plain| && IsRedirect(args[i - |plain|]) && IsRedirect(args[j - |plain|]);
    }
  }

  lemma KeysApart(host: string, target: string, checksum: string, suffix: string, component: string)
    requires host == HOST_KEY && target == TARGET_KEY && checksum == CHECKSUM_KEY
    requires suffix == SUFFIX_KEY && component == COMPONENT_KEY
    ensures suffix !in {host, target, checksum} && component !in {host, target, checksum}
    ensures host != target && host != checksum && target != checksum
  {
    assert |host| == 32 && |target| == 34 && |checksum| == 50 && |suffix| == 34 && |component| == 37;
    assert target[28] == 't' && suffix[28] == 's';
  }

  lemma AnnotationsApart(rc: Resolved, env: Environment)
    ensures SUFFIX_KEY !in AnnotationsOf(rc, env) && COMPONENT_KEY !in AnnotationsOf(rc, env)
    ensures HOST_KEY in AnnotationsOf(rc, env) && AnnotationsOf(rc, env)[HOST_KEY] == rc.Host(env.digest)
  {
    KeysApart(HOST_KEY, TARGET_KEY, CHECKSUM_KEY, SUFFIX_KEY, COMPONENT_KEY);
  }

  lemma SecretsInSidecarVolumes(rc: Resolved, suffix: string)
    ensures forall s :: s in SecretsOf(rc, suffix) ==> s.0 == OAUTH2_PROXY || s.0 == KUBE_RBAC_PROXY
  {
  }
}
