/** `fromSharedConfigFiles`: a provider reading one value from the parsed shared
    configuration file, for the profile named by the caller, the `AWS_PROFILE`
    environment variable or `default`. The loaded file and the environment are
    parameters; the value found is returned as is, and anything undefined becomes
    a `ProviderError`. */
module SharedConfigProvider {
  import opened Results

  /** One `[profile]` section: its keys and their string values. */
  type Profile = map<string, string>

  /** The parsed configuration file: sections by profile name. */
  type ConfigFile = map<string, Profile>

  const DefaultProfile := "default"
  const EnvProfile := "AWS_PROFILE"

  /** The caller's options; only `profile` takes part in the lookup. */
  datatype SharedConfigInit = SharedConfigInit(profile: Option<string>)

  /** What a getter does with a section: return a value, return `undefined`, or
      throw an error carrying a message (`""` when it has none). */
  datatype GetterOutcome<T> = Returns(value: T) | ReturnsUndefined | Throws(message: string)

  /** `string | GetterFromConfig<T>`: a key of the section, or a function of the
      section together with its source text (what `${configSelector}` prints). */
  datatype Selector<T> = ByKey(key: string) | ByGetter(get: Profile -> GetterOutcome<T>, source: string)

  /** `T | string`: a string selector yields the section's text, a getter its own value. */
  datatype Selected<T> = Text(text: string) | Computed(value: T)

  datatype ProviderError = ProviderError(message: string)

  /** `profile = process.env[ENV_PROFILE] || DEFAULT_PROFILE` as a destructuring
      default: only an absent `profile` falls back, and then only a non-empty
      environment value is used. */
  function ProfileName(init: SharedConfigInit, env: map<string, string>): (p: string)
    ensures init.profile.Some? ==> p == init.profile.value
    ensures init.profile.None? ==>
      if EnvProfile in env && env[EnvProfile] != "" then p == env[EnvProfile] else p == DefaultProfile
  {
    match init.profile
    case Some(given) => given
    case None =>
      if EnvProfile in env && env[EnvProfile] != "" then env[EnvProfile] else DefaultProfile
  }

  /** `configFile[profile] || {}`: a section is an object, so it is always truthy. */
  function Section(config: ConfigFile, profile: string): (s: Profile)
    ensures profile !in config ==> s == map[]
    ensures profile in config ==> s == config[profile]
  {
    if profile in config then config[profile] else map[]
  }

  /** `${configSelector}`: the key itself, or the getter's source text. */
  function SelectorText<T>(selector: Selector<T>): string {
    match selector
    case ByKey(key) => key
    case ByGetter(_, source) => source
  }

  /** The message used when the selected value is undefined or the error thrown
      has no message. */
  function NotFoundMessage(selector: string, profile: string): (m: string)
    ensures |m| > 0
  {
    "No " + selector + " found for profile " + profile + " in SDK configuration files"
  }

  /** The `try` block: the string selector reads `configFile?.[profile]?.[key]`,
      the getter is applied to the section or `{}`. */
  function Select<T>(selector: Selector<T>, config: ConfigFile, profile: string): (o: GetterOutcome<Selected<T>>)
    ensures selector.ByKey? ==> !o.Throws?
    ensures selector.ByKey? ==> (o.Returns? <==> profile in config && selector.key in config[profile])
    ensures selector.ByKey? && o.Returns? ==> o.value == Text(config[profile][selector.key])
  {
    match selector
    case ByKey(key) =>
      if profile in config && key in config[profile] then Returns(Text(config[profile][key])) else ReturnsUndefined
    case ByGetter(get, _) =>
      match get(Section(config, profile))
      case Returns(v) => Returns(Computed(v))
      case ReturnsUndefined => ReturnsUndefined
      case Throws(m) => Throws(m)
  }

  /** `fromSharedConfigFiles(configSelector, init)()`: the defined value found, or a
      `ProviderError` whose message is the thrown one when non-empty and otherwise
      names the selector and the profile. */
  function FromSharedConfigFiles<T>(selector: Selector<T>, init: SharedConfigInit, env: map<string, string>,
                                    config: ConfigFile): (r: Result<Selected<T>, ProviderError>)
    ensures r.Err? ==> |r.error.message| > 0
    ensures var profile := ProfileName(init, env);
      var found := Select(selector, config, profile);
      && (r.Ok? <==> found.Returns?)
      && (r.Ok? ==> r.value == found.value)
  {
    var profile := ProfileName(init, env);
    match Select(selector, config, profile)
    case Returns(v) => Ok(v)
    case ReturnsUndefined =>
      // `throw new Error()`: the empty message falls back to the generic one.
      Err(ProviderError(NotFoundMessage(SelectorText(selector), profile)))
    case Throws(m) =>
      Err(ProviderError(if m != "" then m else NotFoundMessage(SelectorText(selector), profile)))
  }

  // ---------------------------------------------------------------- properties

  /** The profile is never empty unless the caller asked for the empty profile. */
  lemma ProfileEmptyOnlyIfGiven(init: SharedConfigInit, env: map<string, string>)
    ensures ProfileName(init, env) == "" ==> init.profile == Some("")
  {
  }

  /** An empty `AWS_PROFILE` is ignored, but an empty explicit profile is used. */
  lemma EmptyEnvironmentProfileIgnored(env: map<string, string>)
    requires EnvProfile in env && env[EnvProfile] == ""
    ensures ProfileName(SharedConfigInit(None), env) == DefaultProfile
    ensures ProfileName(SharedConfigInit(Some("")), env) == ""
  {
  }

  /** A string selector returns the profile's value for the key, and fails with the
      generic message exactly when the profile or the key is missing. */
  lemma KeySelector(key: string, init: SharedConfigInit, env: map<string, string>, config: ConfigFile)
    ensures var profile := ProfileName(init, env);
      var r := FromSharedConfigFiles<string>(ByKey(key), init, env, config);
      && (r.Ok? <==> profile in config && key in config[profile])
      && (r.Ok? ==> r.value == Text(config[profile][key]))
      && (r.Err? ==> r.error.message == NotFoundMessage(key, profile))
  {
  }

  /** Only undefined is a failure: an empty string, like any other defined value,
      is returned unchanged. */
  lemma EmptyStringIsFound(key: string, profile: string, section: Profile, env: map<string, string>)
    requires key in section && section[key] == ""
    ensures FromSharedConfigFiles<string>(ByKey(key), SharedConfigInit(Some(profile)), env, map[profile := section])
            == Ok(Text(""))
  {
  }

  /** A getter sees the profile's section, or the empty section when the profile
      is missing; its own defined value is the result. */
  lemma GetterSeesSection<T>(get: Profile -> GetterOutcome<T>, source: string, init: SharedConfigInit,
                             env: map<string, string>, config: ConfigFile)
    ensures var profile := ProfileName(init, env);
      var r := FromSharedConfigFiles(ByGetter(get, source), init, env, config);
      && (r.Ok? <==> get(Section(config, profile)).Returns?)
      && (r.Ok? ==> r.value == Computed(get(Section(config, profile)).value))
  {
  }

  /** A getter's non-empty error message is kept; an empty one, or returning
      undefined, gives the generic message naming the getter's source text. */
  lemma GetterFailures<T>(get: Profile -> GetterOutcome<T>, source: string, init: SharedConfigInit,
                          env: map<string, string>, config: ConfigFile)
    ensures var profile := ProfileName(init, env);
      var outcome := get(Section(config, profile));
      var r := FromSharedConfigFiles(ByGetter(get, source), init, env, config);
      && (outcome.Throws? && outcome.message != "" ==> r == Err(ProviderError(outcome.message)))
      && (outcome.Throws? && outcome.message == "" ==> r == Err(ProviderError(NotFoundMessage(source, profile))))
      && (outcome.ReturnsUndefined? ==> r == Err(ProviderError(NotFoundMessage(source, profile))))
  {
  }

  /** The getter that reads a key: `(section) => section[key]`. */
  function KeyGetter(key: string): Profile -> GetterOutcome<string> {
    section => if key in section then Returns(section[key]) else ReturnsUndefined
  }

  /** Reading a key directly and through the getter that reads it (written as the
      key) agree, except that the getter's value is `Computed` rather than `Text`. */
  lemma KeySelectorIsKeyGetter(key: string, init: SharedConfigInit, env: map<string, string>, config: ConfigFile)
    ensures var direct := FromSharedConfigFiles<string>(ByKey(key), init, env, config);
      var viaGetter := FromSharedConfigFiles(ByGetter(KeyGetter(key), key), init, env, config);
      && (direct.Ok? <==> viaGetter.Ok?)
      && (direct.Ok? ==> direct.value == Text(viaGetter.value.value))
      && (direct.Err? ==> direct.error == viaGetter.error)
  {
    var profile := ProfileName(init, env);
    var section := Section(config, profile);
    assert KeyGetter(key)(section).Returns? <==> profile in config && key in config[profile];
  }
}
