/**
 * The stored configuration of the extension and its two accessors in
 * background.js: `getConfig` (the stored value or the empty default) and
 * `updateConfig` (an object spread of the updates over the current value).
 */
module Configuration {
  import opened Wrappers
  import opened TimeUtils

  /** A blocklist entry: a bare domain string, or an object with the domain and its blocking windows. */
  datatype BlockedEntry =
    | Plain(domain: string)
    | Rule(domain: string, timeWindows: seq<TimeWindow>)

  /** An exact URL that may be visited inside its windows although its domain is blocked. */
  datatype ExceptionUrl = ExceptionUrl(url: string, timeWindows: seq<TimeWindow>)

  /** A JSON value stored in a note (`text`, `color`, `position`, timestamps, `id`). */
  datatype Value = Str(s: string) | Num(n: real) | Obj(fields: map<string, Value>)

  /** A sticky note is a plain object: field name to value. Its identity is its "id" field. */
  type Note = map<string, Value>

  /** The notes kept for one domain. */
  datatype SiteEntry = SiteEntry(domain: string, notes: seq<Note>)

  datatype Config = Config(
    blockedDomains: seq<BlockedEntry>,
    exceptionUrls: seq<ExceptionUrl>,
    siteNotes: seq<SiteEntry>)

  /** The keys an `updates` object may carry; `None` is a key it does not have. */
  datatype ConfigUpdate = ConfigUpdate(
    blockedDomains: Option<seq<BlockedEntry>>,
    exceptionUrls: Option<seq<ExceptionUrl>>,
    siteNotes: Option<seq<SiteEntry>>)

  const DefaultConfig := Config([], [], [])

  const NoUpdate := ConfigUpdate(None, None, None)

  /** `data.config || defaultConfig`: what is stored under "config", or the empty configuration. */
  function GetConfig(stored: Option<Config>): (config: Config)
    ensures stored.None? ==> config.blockedDomains == [] && config.exceptionUrls == [] && config.siteNotes == []
    ensures stored.Some? ==> config == stored.value
  {
    match stored
    case None => DefaultConfig
    case Some(c) => c
  }

  /** `{ ...config, ...updates }`. */
  function MergeConfig(config: Config, updates: ConfigUpdate): (merged: Config)
    ensures updates.blockedDomains.Some? ==> merged.blockedDomains == updates.blockedDomains.value
    ensures updates.blockedDomains.None? ==> merged.blockedDomains == config.blockedDomains
    ensures updates.exceptionUrls.Some? ==> merged.exceptionUrls == updates.exceptionUrls.value
    ensures updates.exceptionUrls.None? ==> merged.exceptionUrls == config.exceptionUrls
    ensures updates.siteNotes.Some? ==> merged.siteNotes == updates.siteNotes.value
    ensures updates.siteNotes.None? ==> merged.siteNotes == config.siteNotes
  {
    Config(
      Override(config.blockedDomains, updates.blockedDomains),
      Override(config.exceptionUrls, updates.exceptionUrls),
      Override(config.siteNotes, updates.siteNotes))
  }

  function Override<T>(current: T, update: Option<T>): (v: T) {
    match update
    case Some(v) => v
    case None => current
  }

  /** Two successive spreads, the second winning on shared keys: `{ ...u1, ...u2 }`. */
  function CombineUpdates(first: ConfigUpdate, second: ConfigUpdate): (combined: ConfigUpdate) {
    ConfigUpdate(
      if second.blockedDomains.Some? then second.blockedDomains else first.blockedDomains,
      if second.exceptionUrls.Some? then second.exceptionUrls else first.exceptionUrls,
      if second.siteNotes.Some? then second.siteNotes else first.siteNotes)
  }

  /** Spreading nothing leaves the configuration as it was. */
  lemma MergeNothing(config: Config)
    ensures MergeConfig(config, NoUpdate) == config
  {
  }

  /** Applying the same updates twice is applying them once. */
  lemma MergeIdempotent(config: Config, updates: ConfigUpdate)
    ensures MergeConfig(MergeConfig(config, updates), updates) == MergeConfig(config, updates)
  {
  }

  /** Two updates in a row are one update with the later keys winning. */
  lemma MergeTwice(config: Config, first: ConfigUpdate, second: ConfigUpdate)
    ensures MergeConfig(MergeConfig(config, first), second) == MergeConfig(config, CombineUpdates(first, second))
  {
  }
}
