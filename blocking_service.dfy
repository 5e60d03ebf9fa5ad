/**
 * The access decision of the extension (js/modules/blockingService.js):
 * `shouldBlockUrl` over a configuration snapshot and the clock, and
 * `blockRequest`, which turns a blocking verdict into a redirect.
 */
module BlockingService {
  import opened Wrappers
  import opened Collections
  import opened UrlUtils
  import opened TimeUtils
  import opened Configuration

  /** `{blocked: false}` or `{blocked: true, reason, message}`. */
  datatype Verdict = Allowed | Blocked(reason: string, message: string)

  const DomainBlockedMessage := "Este domínio está bloqueado."
  const TimeBlockedPrefix := "Esta URL só é permitida nos seguintes horários: "

  /** `bd => domainMatches(domain, typeof bd === 'string' ? bd : bd.domain)`. */
  function MatchesHost(host: string): (p: BlockedEntry -> bool) {
    (entry: BlockedEntry) => DomainMatches(host, entry.domain)
  }

  /** `ex => ex.url === url`. */
  function ExceptionFor(url: string): (p: ExceptionUrl -> bool) {
    (ex: ExceptionUrl) => ex.url == url
  }

  /** Whether a matched entry blocks right now: strings and entries without windows always do. */
  predicate InBlockingWindow(entry: BlockedEntry, now: Clock) {
    !(entry.Rule? && |entry.timeWindows| > 0 && !IsWithinTimeWindow(entry.timeWindows, now))
  }

  /** The verdict once an exception for the exact URL has been found. */
  function ExceptionVerdict(exception: ExceptionUrl, now: Clock): (v: Verdict) {
    if IsWithinTimeWindow(exception.timeWindows, now) then Allowed
    else Blocked("time", TimeBlockedPrefix + FormatTimeWindows(exception.timeWindows))
  }

  /** The index of the entry that governs a host: the first one matching it. */
  predicate FirstMatch(entries: seq<BlockedEntry>, host: string, k: nat) {
    k < |entries| && DomainMatches(host, entries[k].domain) &&
    forall j :: 0 <= j < k ==> !DomainMatches(host, entries[j].domain)
  }

  /**
   * `!blockedDomain`: the entry `find` returned is falsy. Rule objects are
   * always truthy; a string entry is falsy only when it is empty. The empty
   * string matches the host "" and every host ending in ".".
   */
  predicate Falsy(entry: BlockedEntry) {
    entry == Plain("")
  }

  /**
   * `shouldBlockUrl(url)`: the first blocklist entry matching the URL's
   * host, then that entry's windows, then an exception for the exact URL,
   * then that exception's windows.
   */
  function ShouldBlockUrl(url: string, config: Config, now: Clock, parseHost: string -> Option<string>): (v: Verdict)
    ensures v.Blocked? ==> exists i :: 0 <= i < |config.blockedDomains| &&
                            DomainMatches(ExtractDomain(url, parseHost), config.blockedDomains[i].domain)
    ensures v.Blocked? ==> (v.reason == "domain" && v.message == DomainBlockedMessage) ||
                           (v.reason == "time" && StartsWith(v.message, TimeBlockedPrefix))
    ensures v.Blocked? ==> exists k: nat :: FirstMatch(config.blockedDomains, ExtractDomain(url, parseHost), k) &&
                                             !Falsy(config.blockedDomains[k]) &&
                                             InBlockingWindow(config.blockedDomains[k], now)
  {
    var host := ExtractDomain(url, parseHost);
    var found := FindIndex(config.blockedDomains, MatchesHost(host));
    assert found.Some? ==> FirstMatch(config.blockedDomains, host, found.value);
    match Find(config.blockedDomains, MatchesHost(host))
    case None => Allowed
    case Some(entry) =>
      if Falsy(entry) then Allowed
      else if !InBlockingWindow(entry, now) then Allowed
      else match Find(config.exceptionUrls, ExceptionFor(url))
        case None => Blocked("domain", DomainBlockedMessage)
        case Some(exception) => ExceptionVerdict(exception, now)
  }

  /** A URL whose host matches no blocklist entry is allowed. */
  lemma UnmatchedHostAllowed(url: string, config: Config, now: Clock, parseHost: string -> Option<string>)
    requires forall i :: 0 <= i < |config.blockedDomains| ==>
               !DomainMatches(ExtractDomain(url, parseHost), config.blockedDomains[i].domain)
    ensures ShouldBlockUrl(url, config, now, parseHost) == Allowed
  {
  }

  /** The index of the exception that governs a URL: the first one naming it exactly. */
  predicate FirstException(exceptions: seq<ExceptionUrl>, url: string, x: nat) {
    x < |exceptions| && exceptions[x].url == url &&
    forall j :: 0 <= j < x ==> exceptions[j].url != url
  }

  /** Only the first matching entry is consulted: the verdict is the one that entry alone would give. */
  lemma FirstMatchGoverns(url: string, config: Config, now: Clock, parseHost: string -> Option<string>, k: nat)
    requires FirstMatch(config.blockedDomains, ExtractDomain(url, parseHost), k)
    ensures ShouldBlockUrl(url, config, now, parseHost) ==
            ShouldBlockUrl(url, config.(blockedDomains := [config.blockedDomains[k]]), now, parseHost)
  {
    var host := ExtractDomain(url, parseHost);
    FindIndexIsFirst(config.blockedDomains, MatchesHost(host), k);
  }

  /** Entries appended after a matching one never change the verdict. */
  lemma LaterEntriesIgnored(url: string, config: Config, more: seq<BlockedEntry>, now: Clock,
                            parseHost: string -> Option<string>, k: nat)
    requires FirstMatch(config.blockedDomains, ExtractDomain(url, parseHost), k)
    ensures ShouldBlockUrl(url, config.(blockedDomains := config.blockedDomains + more), now, parseHost) ==
            ShouldBlockUrl(url, config, now, parseHost)
  {
    var host := ExtractDomain(url, parseHost);
    FindIndexIsFirst(config.blockedDomains, MatchesHost(host), k);
    FindAppend(config.blockedDomains, more, MatchesHost(host));
  }

  /** A governing entry that is the empty string lets the URL through, whatever comes after it. */
  lemma FalsyMatchAllows(url: string, config: Config, now: Clock, parseHost: string -> Option<string>, k: nat)
    requires FirstMatch(config.blockedDomains, ExtractDomain(url, parseHost), k)
    requires Falsy(config.blockedDomains[k])
    ensures ShouldBlockUrl(url, config, now, parseHost) == Allowed
  {
    FindIndexIsFirst(config.blockedDomains, MatchesHost(ExtractDomain(url, parseHost)), k);
  }

  /** An empty entry shadows a later rule naming a host that ends in a dot. */
  lemma EmptyEntryShadowsLaterRule(now: Clock, parseHost: string -> Option<string>)
    requires parseHost("http://example.com./") == Some("example.com.")
    ensures ShouldBlockUrl("http://example.com./", Config([Plain(""), Plain("example.com.")], [], []), now, parseHost) == Allowed
  {
    var config := Config([Plain(""), Plain("example.com.")], [], []);
    assert "example.com."[|"example.com."| - 1..] == "." + "";
    FalsyMatchAllows("http://example.com./", config, now, parseHost, 0);
  }

  /** A governing entry with windows, none of which covers now, lets the URL through. */
  lemma OutsideBlockingWindowAllowed(url: string, config: Config, now: Clock, parseHost: string -> Option<string>, k: nat)
    requires FirstMatch(config.blockedDomains, ExtractDomain(url, parseHost), k)
    requires config.blockedDomains[k].Rule?
    requires |config.blockedDomains[k].timeWindows| > 0
    requires forall i :: 0 <= i < |config.blockedDomains[k].timeWindows| ==>
               !Covers(config.blockedDomains[k].timeWindows[i], now)
    ensures ShouldBlockUrl(url, config, now, parseHost) == Allowed
  {
    FindIndexIsFirst(config.blockedDomains, MatchesHost(ExtractDomain(url, parseHost)), k);
  }

  /** A governing entry in force, with no exception naming the exact URL, blocks with reason "domain". */
  lemma BlockedWithoutException(url: string, config: Config, now: Clock, parseHost: string -> Option<string>, k: nat)
    requires FirstMatch(config.blockedDomains, ExtractDomain(url, parseHost), k)
    requires !Falsy(config.blockedDomains[k])
    requires InBlockingWindow(config.blockedDomains[k], now)
    requires forall j :: 0 <= j < |config.exceptionUrls| ==> config.exceptionUrls[j].url != url
    ensures ShouldBlockUrl(url, config, now, parseHost) == Blocked("domain", DomainBlockedMessage)
  {
    FindIndexIsFirst(config.blockedDomains, MatchesHost(ExtractDomain(url, parseHost)), k);
  }

  /**
   * With a governing entry in force and an exception for the exact URL, the
   * first such exception decides: allowed inside its windows, otherwise
   * blocked with reason "time" and the formatted windows.
   */
  lemma ExceptionDecides(url: string, config: Config, now: Clock, parseHost: string -> Option<string>, k: nat, x: nat)
    requires FirstMatch(config.blockedDomains, ExtractDomain(url, parseHost), k)
    requires !Falsy(config.blockedDomains[k])
    requires InBlockingWindow(config.blockedDomains[k], now)
    requires FirstException(config.exceptionUrls, url, x)
    ensures var windows := config.exceptionUrls[x].timeWindows;
            ShouldBlockUrl(url, config, now, parseHost) ==
              if IsWithinTimeWindow(windows, now) then Allowed
              else Blocked("time", TimeBlockedPrefix + FormatTimeWindows(windows))
  {
    FindIndexIsFirst(config.blockedDomains, MatchesHost(ExtractDomain(url, parseHost)), k);
    FindIndexIsFirst(config.exceptionUrls, ExceptionFor(url), x);
  }

  /** An exception without windows always lets its URL through, however the domain is blocked. */
  lemma ExceptionWithoutWindowsAllows(url: string, config: Config, now: Clock, parseHost: string -> Option<string>, x: nat)
    requires FirstException(config.exceptionUrls, url, x)
    requires config.exceptionUrls[x].timeWindows == []
    ensures ShouldBlockUrl(url, config, now, parseHost) == Allowed
  {
    FindIndexIsFirst(config.exceptionUrls, ExceptionFor(url), x);
  }

  /** A blocking verdict needs the governing entry to be in force. */
  lemma BlockedOnlyInsideWindow(url: string, config: Config, now: Clock, parseHost: string -> Option<string>, k: nat)
    requires FirstMatch(config.blockedDomains, ExtractDomain(url, parseHost), k)
    requires ShouldBlockUrl(url, config, now, parseHost).Blocked?
    ensures InBlockingWindow(config.blockedDomains[k], now)
  {
    FindIndexIsFirst(config.blockedDomains, MatchesHost(ExtractDomain(url, parseHost)), k);
  }

  /** A URL that does not parse is matched as a literal host: "not-a-url" is caught by a rule for itself. */
  lemma MalformedUrlIsLiteralHost(config: Config, now: Clock, parseHost: string -> Option<string>)
    requires parseHost("not-a-url").None?
    requires config.blockedDomains == [Plain("not-a-url")] && config.exceptionUrls == []
    ensures ShouldBlockUrl("not-a-url", config, now, parseHost) == Blocked("domain", DomainBlockedMessage)
  {
    assert Find(config.blockedDomains, MatchesHost("not-a-url")) == Some(Plain("not-a-url"));
  }

  const VideoUrl := "https://youtube.com/watch?v=1"
  const Weekdays := TimeWindow([1, 2, 3, 4, 5], 8 * 60, 17 * 60)

  /** A domain blocked at all times, with no exception, blocks with reason "domain". */
  lemma ScenarioDomainBlocked(now: Clock, parseHost: string -> Option<string>)
    requires parseHost(VideoUrl) == Some("youtube.com")
    ensures ShouldBlockUrl(VideoUrl, Config([Rule("youtube.com", [])], [], []), now, parseHost) ==
            Blocked("domain", DomainBlockedMessage)
  {
    assert Find([Rule("youtube.com", [])], MatchesHost("youtube.com")) == Some(Rule("youtube.com", []));
  }

  /** An exception for the exact URL on weekdays 8:00-17:00: allowed on Wednesday at 10:00 ... */
  lemma ScenarioExceptionInsideWindow(parseHost: string -> Option<string>)
    requires parseHost(VideoUrl) == Some("youtube.com")
    ensures ShouldBlockUrl(VideoUrl, Config([Rule("youtube.com", [])], [ExceptionUrl(VideoUrl, [Weekdays])], []),
                           Clock(3, 10 * 60), parseHost) == Allowed
  {
    var config := Config([Rule("youtube.com", [])], [ExceptionUrl(VideoUrl, [Weekdays])], []);
    assert FirstMatch(config.blockedDomains, "youtube.com", 0);
    assert FirstException(config.exceptionUrls, VideoUrl, 0);
    ExceptionDecides(VideoUrl, config, Clock(3, 10 * 60), parseHost, 0, 0);
    assert Covers(Weekdays, Clock(3, 10 * 60));
  }

  /** ... and blocked on Saturday at 10:00 with the allowed hours in the message. */
  lemma ScenarioExceptionOutsideWindow(parseHost: string -> Option<string>)
    requires parseHost(VideoUrl) == Some("youtube.com")
    ensures ShouldBlockUrl(VideoUrl, Config([Rule("youtube.com", [])], [ExceptionUrl(VideoUrl, [Weekdays])], []),
                           Clock(6, 10 * 60), parseHost) ==
            Blocked("time", TimeBlockedPrefix +
                            ("Segunda, Terça, Quarta, Quinta, Sexta" + " das " + "8:00" + " às " + "17:00"))
  {
    var config := Config([Rule("youtube.com", [])], [ExceptionUrl(VideoUrl, [Weekdays])], []);
    assert ShouldBlockUrl(VideoUrl, config, Clock(6, 10 * 60), parseHost) ==
           Blocked("time", TimeBlockedPrefix + FormatTimeWindows([Weekdays])) by {
      assert FirstMatch(config.blockedDomains, "youtube.com", 0);
      assert FirstException(config.exceptionUrls, VideoUrl, 0);
      ExceptionDecides(VideoUrl, config, Clock(6, 10 * 60), parseHost, 0, 0);
      assert 6 !in Weekdays.days;
    }
    FormatTimeWindowsExample();
  }

  /** A domain blocked only at weekends is allowed on a Tuesday. */
  lemma ScenarioOutsideDomainWindow(parseHost: string -> Option<string>, minute: int)
    requires parseHost("https://news.com") == Some("news.com")
    ensures ShouldBlockUrl("https://news.com", Config([Rule("news.com", [TimeWindow([0, 6], 0, 24 * 60)])], [], []),
                           Clock(2, minute), parseHost) == Allowed
  {
    var config := Config([Rule("news.com", [TimeWindow([0, 6], 0, 24 * 60)])], [], []);
    assert FirstMatch(config.blockedDomains, "news.com", 0);
    OutsideBlockingWindowAllowed("https://news.com", config, Clock(2, minute), parseHost, 0);
  }

  /** What `blockRequest` hands back to `webRequest.onBeforeRequest`. */
  datatype RequestAction = Redirect(redirectUrl: string) | Proceed

  /**
   * `blockRequest`: a redirect to the block page carrying the message and
   * the URL when the verdict blocks, nothing otherwise. `blockedPage` is
   * `browser.runtime.getURL("blocked.html")` and `encode` is
   * `encodeURIComponent`.
   */
  function BlockRequest(url: string, config: Config, now: Clock, parseHost: string -> Option<string>,
                        blockedPage: string, encode: string -> string): (action: RequestAction)
    ensures action.Redirect? <==> ShouldBlockUrl(url, config, now, parseHost).Blocked?
    ensures action.Redirect? ==>
              action.redirectUrl == blockedPage + "?message=" +
                encode(ShouldBlockUrl(url, config, now, parseHost).message) + "&url=" + encode(url)
  {
    match ShouldBlockUrl(url, config, now, parseHost)
    case Blocked(_, message) => Redirect(blockedPage + "?message=" + encode(message) + "&url=" + encode(url))
    case Allowed => Proceed
  }
}
