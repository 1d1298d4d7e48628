/** The configuration the running application reads (config/runtime.js): it takes the
    `extra` block of the Expo configuration and derives the environment, the API address
    and its safety, the request timeout, the feature flags and the Firebase settings. */
module RuntimeConfig {
  import opened Wrappers
  import opened Truthiness
  import opened Text
  import opened JsValues
  import opened Sequences
  import AppConfig

  /** The timeout used when none is configured, in milliseconds. */
  const DefaultRequestTimeoutMs := 15000

  /** `s` without its trailing run of '/'. */
  function DropTrailingSlashes(s: string): (r: string)
    ensures |r| <= |s| && r == s[..|r|]
    ensures r == [] || r[|r| - 1] != '/'
    ensures forall i :: |r| <= i < |s| ==> s[i] == '/'
  {
    if s != [] && s[|s| - 1] == '/' then DropTrailingSlashes(s[..|s| - 1]) else s
  }

  /** `normalizeBaseUrl` as written: a non-string is '', a string is trimmed and then loses
      its trailing slashes. The result never starts with white space and never ends with
      '/', but it can end with white space that stood before the slashes. */
  function NormalizeBaseUrlAsWritten(v: Value): (r: string)
    ensures !v.Str? ==> r == ""
    ensures r == [] || (!IsSpace(r[0]) && r[|r| - 1] != '/')
  {
    if v.Str? then DropTrailingSlashes(Trim(v.s)) else ""
  }

  /** Applying the written normalisation twice changes "a /" once more: the first pass
      leaves "a ", the second "a". */
  lemma AsWrittenNotIdempotent()
    ensures NormalizeBaseUrlAsWritten(Str("a /")) == "a "
    ensures NormalizeBaseUrlAsWritten(Str("a ")) == "a"
  {
    TrimOfTrimmed("a /");
    assert "a /"[..2] == "a ";
    assert DropTrailingSlashes("a /") == DropTrailingSlashes("a ");
    assert TrimStart("a ") == "a ";
    assert "a "[..1] == "a";
    assert TrimEnd("a ") == TrimEnd("a");
  }

  predicate SlashOrSpace(c: char) {
    c == '/' || IsSpace(c)
  }

  /** `s` without its trailing run of slashes and white space. */
  function DropTrailingSlashesAndSpaces(s: string): (r: string)
    ensures |r| <= |s| && r == s[..|r|]
    ensures r == [] || !SlashOrSpace(r[|r| - 1])
    ensures forall i :: |r| <= i < |s| ==> SlashOrSpace(s[i])
  {
    if s != [] && SlashOrSpace(s[|s| - 1]) then DropTrailingSlashesAndSpaces(s[..|s| - 1]) else s
  }

  /** `normalizeBaseUrl` as intended: a non-string is '', and a string loses its leading
      white space and its trailing run of slashes and white space, so the result is trimmed
      and has no trailing '/'. */
  function NormalizeBaseUrl(v: Value): (r: string)
    ensures !v.Str? ==> r == ""
    ensures r == [] || (!IsSpace(r[0]) && !IsSpace(r[|r| - 1]) && r[|r| - 1] != '/')
  {
    if v.Str? then DropTrailingSlashesAndSpaces(TrimStart(v.s)) else ""
  }

  /** Normalising a normalised address changes nothing. */
  lemma NormalizeBaseUrlIdempotent(v: Value)
    ensures NormalizeBaseUrl(Str(NormalizeBaseUrl(v))) == NormalizeBaseUrl(v)
  {
    var r := NormalizeBaseUrl(v);
    assert TrimStart(r) == r;
    assert DropTrailingSlashesAndSpaces(r) == r;
  }

  /** Cutting a tail of slashes and white space first does not change the result. */
  lemma {:induction false} DropOfPrefix(s: string, k: nat)
    requires k <= |s|
    requires forall i :: k <= i < |s| ==> SlashOrSpace(s[i])
    ensures DropTrailingSlashesAndSpaces(s) == DropTrailingSlashesAndSpaces(s[..k])
    decreases |s| - k
  {
    if k < |s| {
      var shorter := s[..|s| - 1];
      DropOfPrefix(shorter, k);
      assert shorter[..k] == s[..k];
    } else {
      assert s[..k] == s;
    }
  }

  /** What the written normalisation cuts from a string is a tail of slashes and white
      space. */
  lemma AsWrittenCutsTail(t: string)
    ensures var a := DropTrailingSlashes(TrimEnd(t));
            && a == t[..|a|]
            && forall i :: |a| <= i < |t| ==> SlashOrSpace(t[i])
  {
    var e := TrimEnd(t);
    var a := DropTrailingSlashes(e);
    forall i | |a| <= i < |t|
      ensures SlashOrSpace(t[i])
    {
      if i < |e| {
        assert t[i] == e[i];
      }
    }
  }

  /** Cutting trailing slashes and white space together gives what cutting the white space
      and then the slashes gave, when that did not end in white space. */
  lemma DropAgrees(t: string)
    requires var a := DropTrailingSlashes(TrimEnd(t)); a == [] || !IsSpace(a[|a| - 1])
    ensures DropTrailingSlashesAndSpaces(t) == DropTrailingSlashes(TrimEnd(t))
  {
    var a := DropTrailingSlashes(TrimEnd(t));
    AsWrittenCutsTail(t);
    DropOfPrefix(t, |a|);
    assert DropTrailingSlashesAndSpaces(a) == a;
  }

  /** The two normalisations agree whenever the written one does not leave trailing white
      space, which is every address without white space before its trailing slashes. */
  lemma {:induction false} NormalizeAgreesWithAsWritten(v: Value)
    requires var a := NormalizeBaseUrlAsWritten(v); a == [] || !IsSpace(a[|a| - 1])
    ensures NormalizeBaseUrl(v) == NormalizeBaseUrlAsWritten(v)
  {
    if v.Str? {
      var t := TrimStart(v.s);
      assert NormalizeBaseUrlAsWritten(v) == DropTrailingSlashes(TrimEnd(t));
      DropAgrees(t);
    }
  }

  /** `c` ends the host part of a URL. */
  predicate IsHostEnd(c: char) {
    c == '/' || c == '?' || c == '#' || c == ':'
  }

  /** The longest prefix of `s` without a host-ending character. */
  function HostPart(s: string): (r: string)
    ensures |r| <= |s| && r == s[..|r|]
    ensures forall i :: 0 <= i < |r| ==> !IsHostEnd(r[i])
  {
    if s == [] || IsHostEnd(s[0]) then [] else [s[0]] + HostPart(s[1..])
  }

  /** The first position at or after `from` where "://" begins. */
  function FindSeparator(s: string, from: nat): (r: Option<nat>)
    ensures r.Some? ==> from <= r.value && r.value + 3 <= |s| && s[r.value..r.value + 3] == "://"
    decreases |s| - from
  {
    if from + 3 > |s| then None
    else if s[from..from + 3] == "://" then Some(from)
    else FindSeparator(s, from + 1)
  }

  predicate IsSchemeChar(c: char) {
    ('a' <= c <= 'z') || ('A' <= c <= 'Z') || IsDigit(c) || c == '+' || c == '-' || c == '.'
  }

  /** `new URL(url).hostname` for an absolute `scheme://host...` address: the host,
      lower-cased; `None` where the constructor throws or the host is empty. */
  function Hostname(url: string): (r: Option<string>)
    ensures r.Some? ==> r.value != ""
  {
    var k := FindSeparator(url, 0);
    if k.None? || k.value == 0 || !(('a' <= url[0] <= 'z') || ('A' <= url[0] <= 'Z'))
       || exists i :: 0 <= i < k.value && !IsSchemeChar(url[i])
    then None
    else
      var host := HostPart(url[k.value + 3..]);
      if host == "" then None else Some(Lower(host))
  }

  /** The second octet of a 172.16.0.0/12 address: 16 to 31. */
  predicate PrivateSecondOctet(a: char, b: char) {
    (a == '1' && '6' <= b <= '9') || (a == '2' && IsDigit(b)) || (a == '3' && (b == '0' || b == '1'))
  }

  /** The private-address pattern: loopback and unspecified names, and the 10/8, 192.168/16
      and 172.16/12 ranges, matched as prefixes of the host name. */
  predicate PrivatePrefix(h: string) {
    || StartsWith(h, "localhost")
    || StartsWith(h, "127.0.0.1")
    || StartsWith(h, "0.0.0.0")
    || StartsWith(h, "10.")
    || StartsWith(h, "192.168.")
    || (StartsWith(h, "172.") && |h| >= 7 && PrivateSecondOctet(h[4], h[5]) && h[6] == '.')
  }

  /** `isPrivateHost(url)`: false for an address that does not parse, else whether its host
      name matches the private pattern. */
  predicate IsPrivateHost(url: string) {
    Hostname(url).Some? && PrivatePrefix(Hostname(url).value)
  }

  /** The first "://" at or after `from` is the one at `k` when no ':' comes before it. */
  lemma {:induction false} FindSeparatorAt(s: string, from: nat, k: nat)
    requires from <= k && k + 3 <= |s| && s[k..k + 3] == "://"
    requires forall i :: from <= i < k ==> s[i] != ':'
    ensures FindSeparator(s, from) == Some(k)
    decreases k - from
  {
    if from < k {
      assert s[from..from + 3][0] == s[from];
      FindSeparatorAt(s, from + 1, k);
    }
  }

  /** The host part of a host followed by its delimiter is the host. */
  lemma {:induction false} HostPartOf(host: string, rest: string)
    requires forall i :: 0 <= i < |host| ==> !IsHostEnd(host[i])
    requires rest == [] || IsHostEnd(rest[0])
    ensures HostPart(host + rest) == host
  {
    if host != [] {
      assert (host + rest)[1..] == host[1..] + rest;
      HostPartOf(host[1..], rest);
    } else {
      assert host + rest == rest;
    }
  }

  /** A scheme name: a letter, then letters, digits, '+', '-' or '.'. */
  predicate IsScheme(s: string) {
    s != [] && (('a' <= s[0] <= 'z') || ('A' <= s[0] <= 'Z')) && forall i :: 0 <= i < |s| ==> IsSchemeChar(s[i])
  }

  /** A non-empty host name without port, path, query or fragment. */
  predicate IsHost(h: string) {
    h != [] && forall i :: 0 <= i < |h| ==> !IsHostEnd(h[i])
  }

  /** Parsing `scheme://host<rest>` gives back the host, lower-cased, when `rest` starts
      with a port, path, query or fragment (or is empty); so such an address is private
      exactly when its host matches the pattern. */
  lemma HostnameOfAddress(scheme: string, host: string, rest: string)
    requires IsScheme(scheme) && IsHost(host)
    requires rest == [] || IsHostEnd(rest[0])
    ensures Hostname(scheme + ("://" + (host + rest))) == Some(Lower(host))
    ensures IsPrivateHost(scheme + ("://" + (host + rest))) <==> PrivatePrefix(Lower(host))
  {
    var tail := "://" + (host + rest);
    var url := scheme + tail;
    var k := |scheme|;
    assert url[k..] == tail;
    assert tail[..3] == "://";
    assert url[k..k + 3] == "://";
    forall i | 0 <= i < k
      ensures url[i] != ':'
    {
      assert url[i] == scheme[i];
    }
    FindSeparatorAt(url, 0, k);
    assert url[0] == scheme[0];
    assert !exists i :: 0 <= i < k && !IsSchemeChar(url[i]);
    assert url[k + 3..] == host + rest;
    HostPartOf(host, rest);
  }

  /** Example: loopback and 172.16/12 hosts match the private pattern; 172.32 does not. */
  lemma PrivatePrefixExamples()
    ensures PrivatePrefix("localhost")
    ensures PrivatePrefix("172.20.1.5")
    ensures !PrivatePrefix("172.32.0.1")
  {
    assert "localhost"[..9] == "localhost";
    assert "172.20.1.5"[..4] == "172.";
    var h := "172.32.0.1";
    assert h[0] == '1' && h[1] == '7' && h[4] == '3' && h[5] == '2';
    assert !StartsWith(h, "localhost") by { assert "localhost"[0] == 'l'; }
    assert !StartsWith(h, "127.0.0.1") by { assert h[..9][1] == h[1]; }
    assert !StartsWith(h, "0.0.0.0") by { assert h[..7][0] == h[0]; }
    assert !StartsWith(h, "10.") by { assert h[..3][1] == h[1]; }
    assert !StartsWith(h, "192.168.") by { assert h[..8][1] == h[1]; }
  }

  /** `hasUnsafeProductionApiUrl`: in production, an empty address, a plain-HTTP one or one on
      a private host is unsafe; outside production nothing is. */
  function HasUnsafeProductionApiUrl(isProduction: bool, apiUrl: string): (r: bool)
    ensures !isProduction ==> !r
    ensures isProduction && (apiUrl == "" || StartsWith(apiUrl, "http://")) ==> r
    ensures isProduction && IsPrivateHost(apiUrl) ==> r
    ensures r ==> apiUrl == "" || StartsWith(apiUrl, "http://") || IsPrivateHost(apiUrl)
  {
    isProduction && (apiUrl == "" || StartsWith(apiUrl, "http://") || IsPrivateHost(apiUrl))
  }

  /** The Firebase settings, each '' when unset. */
  datatype Firebase = Firebase(
    apiKey: string,
    authDomain: string,
    projectId: string,
    storageBucket: string,
    messagingSenderId: string,
    appId: string,
    measurementId: string)

  /** The settings Firebase cannot start without, in the order they are reported. */
  const RequiredFirebaseFields: seq<string> := ["apiKey", "authDomain", "projectId", "appId"]

  /** `firebase[key]`; an unknown key reads as ''. */
  function Field(f: Firebase, key: string): string {
    match key
    case "apiKey" => f.apiKey
    case "authDomain" => f.authDomain
    case "projectId" => f.projectId
    case "storageBucket" => f.storageBucket
    case "messagingSenderId" => f.messagingSenderId
    case "appId" => f.appId
    case "measurementId" => f.measurementId
    case _ => ""
  }

  /** The test of the missing-key filter: the setting is empty. */
  function IsMissingIn(f: Firebase): string -> bool {
    (key: string) => Field(f, key) == ""
  }

  /** `keys.filter((key) => !firebase[key])`. */
  function MissingAmong(f: Firebase, keys: seq<string>): (r: seq<string>)
    ensures r == Select(keys, IsMissingIn(f))
    ensures forall k :: k in r <==> k in keys && Field(f, k) == ""
  {
    if keys == [] then []
    else
      var rest := MissingAmong(f, keys[1..]);
      assert forall k :: k in keys <==> k == keys[0] || k in keys[1..];
      if Field(f, keys[0]) == "" then [keys[0]] + rest else rest
  }

  /** `missingFirebaseKeys`. */
  function MissingFirebaseKeys(f: Firebase): seq<string> {
    MissingAmong(f, RequiredFirebaseFields)
  }

  /** Firebase is configured exactly when API key, auth domain, project id and app id are
      all set; the optional settings do not matter. */
  lemma FirebaseConfiguredIff(f: Firebase)
    ensures MissingFirebaseKeys(f) == [] <==>
              f.apiKey != "" && f.authDomain != "" && f.projectId != "" && f.appId != ""
  {
    var keys := RequiredFirebaseFields;
    SelectEmpty(keys, IsMissingIn(f));
    assert Field(f, keys[0]) == f.apiKey && Field(f, keys[1]) == f.authDomain;
    assert Field(f, keys[2]) == f.projectId && Field(f, keys[3]) == f.appId;
  }

  /** The missing keys are the required keys left empty, in the order of the required list,
      each once. */
  lemma MissingKeysInOrder(f: Firebase)
    ensures IsSubsequence(MissingFirebaseKeys(f), RequiredFirebaseFields)
    ensures forall k :: multiset(MissingFirebaseKeys(f))[k] == if Field(f, k) == "" then multiset(RequiredFirebaseFields)[k] else 0
  {
    SelectIsSubsequence(RequiredFirebaseFields, IsMissingIn(f));
    forall k {
      SelectCounts(RequiredFirebaseFields, IsMissingIn(f), k);
    }
  }

  /** The `extra` block as the running application sees it; a missing block has every
      field unset. */
  datatype Extras = Extras(
    appEnv: Option<string>,
    apiUrl: Value,
    requestTimeoutMs: Value,
    enableVerboseLogging: Value,
    allowOfflineAuth: Value,
    firebaseApiKey: Option<string>,
    firebaseAuthDomain: Option<string>,
    firebaseProjectId: Option<string>,
    firebaseStorageBucket: Option<string>,
    firebaseMessagingSenderId: Option<string>,
    firebaseAppId: Option<string>,
    firebaseMeasurementId: Option<string>,
    numistaApiKey: Option<string>,
    numistaUserId: Option<string>)

  /** The exported `runtimeConfig`. */
  datatype Config = Config(
    appEnv: string,
    isProduction: bool,
    apiUrl: string,
    requestTimeoutMs: int,
    enableVerboseLogging: bool,
    allowOfflineAuth: bool,
    hasUnsafeProductionApiUrl: bool,
    isFirebaseConfigured: bool,
    missingFirebaseKeys: seq<string>,
    firebase: Firebase,
    numistaApiKey: string,
    numistaUserId: string)

  /** `x || ''` on an optional setting. */
  function OrEmpty(o: Option<string>): string {
    if TruthyStr(o) then o.value else ""
  }

  /** The runtime configuration for `extra` and the process's `NODE_ENV`. */
  function RuntimeConfigOf(extra: Extras, nodeEnv: Option<string>): (c: Config)
    ensures c.appEnv == AppConfig.EnvironmentName(extra.appEnv, nodeEnv)
    ensures c.isProduction <==> c.appEnv == "production"
    ensures c.requestTimeoutMs == ToNumber(extra.requestTimeoutMs, DefaultRequestTimeoutMs)
    ensures c.requestTimeoutMs > 0
    ensures c.apiUrl == NormalizeBaseUrlAsWritten(if Truthy(extra.apiUrl) then extra.apiUrl else Str(""))
    ensures c.enableVerboseLogging == ToBoolean(extra.enableVerboseLogging, !c.isProduction)
    ensures c.allowOfflineAuth == ToBoolean(extra.allowOfflineAuth, !c.isProduction)
    ensures extra.enableVerboseLogging.Undefined? ==> c.enableVerboseLogging == !c.isProduction
    ensures extra.allowOfflineAuth.Undefined? ==> c.allowOfflineAuth == !c.isProduction
    ensures c.hasUnsafeProductionApiUrl == HasUnsafeProductionApiUrl(c.isProduction, c.apiUrl)
    ensures !c.isProduction ==> !c.hasUnsafeProductionApiUrl
    ensures c.firebase == Firebase(
              OrEmpty(extra.firebaseApiKey), OrEmpty(extra.firebaseAuthDomain), OrEmpty(extra.firebaseProjectId),
              OrEmpty(extra.firebaseStorageBucket), OrEmpty(extra.firebaseMessagingSenderId),
              OrEmpty(extra.firebaseAppId), OrEmpty(extra.firebaseMeasurementId))
    ensures c.missingFirebaseKeys == MissingFirebaseKeys(c.firebase)
    ensures c.isFirebaseConfigured <==> c.missingFirebaseKeys == []
    ensures forall k :: k in c.missingFirebaseKeys <==> k in RequiredFirebaseFields && Field(c.firebase, k) == ""
    ensures c.numistaApiKey == OrEmpty(extra.numistaApiKey) && c.numistaUserId == OrEmpty(extra.numistaUserId)
  {
    var appEnv := AppConfig.EnvironmentName(extra.appEnv, nodeEnv);
    var isProduction := appEnv == "production";
    var apiUrl := NormalizeBaseUrlAsWritten(if Truthy(extra.apiUrl) then extra.apiUrl else Str(""));
    var firebase := Firebase(
      OrEmpty(extra.firebaseApiKey), OrEmpty(extra.firebaseAuthDomain), OrEmpty(extra.firebaseProjectId),
      OrEmpty(extra.firebaseStorageBucket), OrEmpty(extra.firebaseMessagingSenderId),
      OrEmpty(extra.firebaseAppId), OrEmpty(extra.firebaseMeasurementId));
    var missing := MissingFirebaseKeys(firebase);
    Config(
      appEnv,
      isProduction,
      apiUrl,
      ToNumber(extra.requestTimeoutMs, DefaultRequestTimeoutMs),
      ToBoolean(extra.enableVerboseLogging, !isProduction),
      ToBoolean(extra.allowOfflineAuth, !isProduction),
      HasUnsafeProductionApiUrl(isProduction, apiUrl),
      |missing| == 0,
      missing,
      firebase,
      OrEmpty(extra.numistaApiKey),
      OrEmpty(extra.numistaUserId))
  }

  /** The `extra` block app.config.js writes, as the runtime reads it back. */
  function FromAppConfig(x: AppConfig.Extra): Extras {
    Extras(Some(x.appEnv), Str(x.apiUrl), Num(x.requestTimeoutMs), Bool(x.enableVerboseLogging),
           Bool(x.allowOfflineAuth), x.firebaseApiKey, x.firebaseAuthDomain, x.firebaseProjectId,
           x.firebaseStorageBucket, x.firebaseMessagingSenderId, x.firebaseAppId,
           x.firebaseMeasurementId, x.numistaApiKey, x.numistaUserId)
  }

  /** Building the configuration and reading it back agree on the environment: the runtime
      sees the build's environment name whatever `NODE_ENV` the process has. */
  lemma BuildThenRuntimeEnvironment(env: AppConfig.Env, nodeEnv: Option<string>)
    ensures var x := AppConfig.ExtraOf(env);
            var c := RuntimeConfigOf(FromAppConfig(x), nodeEnv);
            c.appEnv == x.appEnv && c.isProduction == AppConfig.IsProduction(x.appEnv)
  {
    var x := AppConfig.ExtraOf(env);
    AppConfig.EnvironmentNameStable(env.appEnv, env.nodeEnv, nodeEnv);
  }

  /** ... and on the flags, the timeout and the API address, which the runtime normalises. */
  lemma BuildThenRuntimeSettings(env: AppConfig.Env, nodeEnv: Option<string>)
    ensures var x := AppConfig.ExtraOf(env);
            var c := RuntimeConfigOf(FromAppConfig(x), nodeEnv);
            && c.enableVerboseLogging == x.enableVerboseLogging
            && c.allowOfflineAuth == x.allowOfflineAuth
            && c.requestTimeoutMs == x.requestTimeoutMs
            && c.apiUrl == NormalizeBaseUrlAsWritten(Str(x.apiUrl))
  {
    var x := AppConfig.ExtraOf(env);
    ToNumberStable(EnvValue(env.requestTimeoutMs), AppConfig.DefaultTimeoutMs, DefaultRequestTimeoutMs);
    assert Truthy(Str(x.apiUrl)) || x.apiUrl == "";
  }

  /** The address the runtime uses is the intended normalisation of the configured one
      whenever the written normalisation leaves no trailing white space. */
  lemma RuntimeAddressAsIntended(extra: Extras, nodeEnv: Option<string>)
    requires var a := NormalizeBaseUrlAsWritten(if Truthy(extra.apiUrl) then extra.apiUrl else Str(""));
             a == [] || !IsSpace(a[|a| - 1])
    ensures RuntimeConfigOf(extra, nodeEnv).apiUrl == NormalizeBaseUrl(if Truthy(extra.apiUrl) then extra.apiUrl else Str(""))
  {
    NormalizeAgreesWithAsWritten(if Truthy(extra.apiUrl) then extra.apiUrl else Str(""));
  }

  /** In production an HTTPS address on a public host is safe, and the same host over plain
      HTTP is not. */
  lemma ProductionAddressSafety(host: string, rest: string)
    requires IsHost(host) && !PrivatePrefix(Lower(host))
    requires rest == [] || IsHostEnd(rest[0])
    ensures !HasUnsafeProductionApiUrl(true, "https" + ("://" + (host + rest)))
    ensures HasUnsafeProductionApiUrl(true, "http" + ("://" + (host + rest)))
  {
    var secure := "https" + ("://" + (host + rest));
    assert IsScheme("https");
    HostnameOfAddress("https", host, rest);
    assert secure[..7][4] == 's';
    var plain := "http" + ("://" + (host + rest));
    assert plain[..7] == "http://";
  }
}
