/** The `extra` block app.config.js computes from the environment at build time: the
    environment name, the API address, the two feature flags, the request timeout and the
    Firebase and Numista keys. */
module AppConfig {
  import opened Wrappers
  import opened Truthiness
  import opened Text
  import opened JsValues

  /** The timeout used when none is configured, in milliseconds. */
  const DefaultTimeoutMs := 15000

  /** The environment variables the configuration reads; each may be unset. */
  datatype Env = Env(
    appEnv: Option<string>,
    nodeEnv: Option<string>,
    apiUrl: Option<string>,
    allowOfflineAuth: Option<string>,
    enableVerboseLogging: Option<string>,
    requestTimeoutMs: Option<string>,
    firebaseApiKey: Option<string>,
    firebaseAuthDomain: Option<string>,
    firebaseProjectId: Option<string>,
    firebaseStorageBucket: Option<string>,
    firebaseMessagingSenderId: Option<string>,
    firebaseAppId: Option<string>,
    firebaseMeasurementId: Option<string>,
    numistaApiKey: Option<string>,
    numistaUserId: Option<string>)

  /** `String(first || second || 'development').toLowerCase()`: the first truthy name,
      lower-cased. The runtime configuration derives its name the same way. */
  function EnvironmentName(first: Option<string>, second: Option<string>): (name: string)
    ensures name != "" && Lower(name) == name
    ensures !TruthyStr(first) && !TruthyStr(second) ==> name == "development"
    ensures TruthyStr(first) ==> name == Lower(first.value)
    ensures !TruthyStr(first) && TruthyStr(second) ==> name == Lower(second.value)
  {
    var chosen := if TruthyStr(first) then first.value else if TruthyStr(second) then second.value else "development";
    LowerIdempotent(chosen);
    LowerDevelopment();
    Lower(chosen)
  }

  /** The default name is already lower-case. */
  lemma LowerDevelopment()
    ensures Lower("development") == "development"
  {
    LowerOfAscii("development");
  }

  predicate IsProduction(name: string) {
    name == "production"
  }

  /** Naming the environment again from its own name gives the same name. */
  lemma EnvironmentNameStable(first: Option<string>, second: Option<string>, other: Option<string>)
    ensures EnvironmentName(Some(EnvironmentName(first, second)), other) == EnvironmentName(first, second)
  {
  }

  /** The computed `extra` block. */
  datatype Extra = Extra(
    appEnv: string,
    apiUrl: string,
    allowOfflineAuth: bool,
    enableVerboseLogging: bool,
    requestTimeoutMs: int,
    firebaseApiKey: Option<string>,
    firebaseAuthDomain: Option<string>,
    firebaseProjectId: Option<string>,
    firebaseStorageBucket: Option<string>,
    firebaseMessagingSenderId: Option<string>,
    firebaseAppId: Option<string>,
    firebaseMeasurementId: Option<string>,
    numistaApiKey: Option<string>,
    numistaUserId: Option<string>)

  /** The `extra` block for environment `env`: the flags default to on outside production,
      the timeout is a positive number (15000 unless a positive one is configured), the
      API address is '' when unset, and the keys are copied as they are. */
  function ExtraOf(env: Env): (x: Extra)
    ensures x.appEnv == EnvironmentName(env.appEnv, env.nodeEnv)
    ensures x.allowOfflineAuth == ToBoolean(EnvValue(env.allowOfflineAuth), !IsProduction(x.appEnv))
    ensures x.enableVerboseLogging == ToBoolean(EnvValue(env.enableVerboseLogging), !IsProduction(x.appEnv))
    ensures env.allowOfflineAuth.None? ==> x.allowOfflineAuth == !IsProduction(x.appEnv)
    ensures env.enableVerboseLogging.None? ==> x.enableVerboseLogging == !IsProduction(x.appEnv)
    ensures x.requestTimeoutMs == ToNumber(EnvValue(env.requestTimeoutMs), DefaultTimeoutMs)
    ensures x.requestTimeoutMs > 0
    ensures env.requestTimeoutMs.None? ==> x.requestTimeoutMs == DefaultTimeoutMs
    ensures x.apiUrl == if TruthyStr(env.apiUrl) then env.apiUrl.value else ""
    ensures x.firebaseApiKey == env.firebaseApiKey && x.firebaseAuthDomain == env.firebaseAuthDomain
    ensures x.firebaseProjectId == env.firebaseProjectId && x.firebaseStorageBucket == env.firebaseStorageBucket
    ensures x.firebaseMessagingSenderId == env.firebaseMessagingSenderId && x.firebaseAppId == env.firebaseAppId
    ensures x.firebaseMeasurementId == env.firebaseMeasurementId
    ensures x.numistaApiKey == env.numistaApiKey && x.numistaUserId == env.numistaUserId
  {
    var appEnv := EnvironmentName(env.appEnv, env.nodeEnv);
    var production := IsProduction(appEnv);
    Extra(
      appEnv,
      if TruthyStr(env.apiUrl) then env.apiUrl.value else "",
      ToBoolean(EnvValue(env.allowOfflineAuth), !production),
      ToBoolean(EnvValue(env.enableVerboseLogging), !production),
      ToNumber(EnvValue(env.requestTimeoutMs), DefaultTimeoutMs),
      env.firebaseApiKey, env.firebaseAuthDomain, env.firebaseProjectId, env.firebaseStorageBucket,
      env.firebaseMessagingSenderId, env.firebaseAppId, env.firebaseMeasurementId,
      env.numistaApiKey, env.numistaUserId)
  }
}
